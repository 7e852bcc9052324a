/** The vitality task manager object: queueing, execution and periodic scheduling. */
module VitalityTaskManager {
  import opened TimedStore
  import VitalityQueue

  const MINUTE := 60

  datatype Result = Calculated | CollectionMissing | Failed

  datatype Status = Success | Failure

  /** A listed collection with the time of its last vitality calculation, if any. */
  datatype Collection = Collection(address: string, tier: string, updatedAt: Option<int>)

  function Interval(tier: string): int {
    if tier == "VIP" then 5 * MINUTE else if tier == "ACTIVE" then 30 * MINUTE else 120 * MINUTE
  }

  function Priority(tier: string): nat { if tier == "VIP" then 3 else if tier == "ACTIVE" then 2 else 1 }

  predicate ShouldRecalculate(c: Collection, now: int) {
    c.updatedAt == None || now - c.updatedAt.value >= Interval(c.tier)
  }

  /** The task made for a collection. */
  function TaskOf(c: Collection, stamp: string): VitalityQueue.Task {
    VitalityQueue.Task("vitality_" + c.address + "_" + stamp, c.address, Priority(c.tier), 0, 2)
  }

  /** A collection of a tier is due when it was never calculated, or last calculated 300 seconds ago for a VIP one,
      1800 for an active one, 7200 for any other; and its task is of priority 3, 2 or 1. */
  lemma DueAfter(c: Collection, now: int, stamp: string)
    ensures c.updatedAt == None ==> ShouldRecalculate(c, now)
    ensures c.updatedAt.Some? && c.tier == "VIP" ==> (ShouldRecalculate(c, now) <==> now >= c.updatedAt.value + 300)
    ensures c.updatedAt.Some? && c.tier == "ACTIVE" ==> (ShouldRecalculate(c, now) <==> now >= c.updatedAt.value + 1800)
    ensures c.updatedAt.Some? && c.tier !in {"VIP", "ACTIVE"} ==> (ShouldRecalculate(c, now) <==> now >= c.updatedAt.value + 7200)
    ensures TaskOf(c, stamp).id == "vitality_" + c.address + "_" + stamp
    ensures TaskOf(c, stamp).address == c.address && TaskOf(c, stamp).retryCount == 0 && TaskOf(c, stamp).maxRetries == 2
    ensures TaskOf(c, stamp).priority == if c.tier == "VIP" then 3 else if c.tier == "ACTIVE" then 2 else 1
  {}

  /** A collection that is due stays due until it is calculated again. */
  lemma StaysDue(c: Collection, now: int, later: int)
    requires ShouldRecalculate(c, now) && now <= later
    ensures ShouldRecalculate(c, later)
  {}

  /** Rounds that look at a collection at most `gap` seconds apart find it due less than `gap` seconds after its
      time, in the first round of the time or later, and in every round from then on. */
  lemma {:induction false} DueInTime(c: Collection, times: seq<int>, wait: int, gap: int) returns (k: nat)
    requires wait == if c.tier == "VIP" then 300 else if c.tier == "ACTIVE" then 1800 else 7200
    requires forall i: nat, j: nat :: i < j < |times| ==> times[i] < times[j]
    requires forall i: nat, j: nat :: j == i + 1 < |times| ==> times[j] <= times[i] + gap
    requires c.updatedAt.Some? && times != [] && times[0] < c.updatedAt.value + wait + gap
    requires c.updatedAt.value + wait <= times[|times| - 1]
    ensures k < |times| && times[k] < c.updatedAt.value + wait + gap
    ensures forall i: nat :: i < |times| ==> (ShouldRecalculate(c, times[i]) <==> k <= i)
    decreases |times|
  {
    DueAfter(c, times[0], "");
    if ShouldRecalculate(c, times[0]) {
      k := 0;
      forall i: nat | i < |times| ensures ShouldRecalculate(c, times[i]) {
        StaysDue(c, times[0], times[i]);
      }
    } else {
      var rest := times[1..];
      assert times[1] <= times[0] + gap;
      k := DueInTime(c, rest, wait, gap);
      assert forall i: nat :: 0 < i < |times| ==> times[i] == rest[i - 1];
      k := k + 1;
    }
  }

  /** The collections that a scheduling round queues, the addresses in `active` being busy. */
  function Scheduled(cs: seq<Collection>, now: int, active: set<string>): seq<Collection> {
    if cs == [] then []
    else if ShouldRecalculate(cs[0], now) && cs[0].address !in active
    then [cs[0]] + Scheduled(cs[1..], now, active + {cs[0].address})
    else Scheduled(cs[1..], now, active)
  }

  lemma {:induction false} ScheduledAppend(cs: seq<Collection>, c: Collection, now: int, active: set<string>)
    ensures
      var r := Scheduled(cs, now, active);
      Scheduled(cs + [c], now, active) ==
        if ShouldRecalculate(c, now) && c.address !in active + Addresses(r) then r + [c] else r
    decreases |cs|
  {
    if cs == [] {
      assert cs + [c] == [c] && [c][1..] == [];
    } else {
      assert (cs + [c])[1..] == cs[1..] + [c];
      if ShouldRecalculate(cs[0], now) && cs[0].address !in active {
        ScheduledAppend(cs[1..], c, now, active + {cs[0].address});
        var rest := Scheduled(cs[1..], now, active + {cs[0].address});
        AddressesCons(cs[0], rest);
        assert active + {cs[0].address} + Addresses(rest) == active + Addresses([cs[0]] + rest);
        assert [cs[0]] + (rest + [c]) == [cs[0]] + rest + [c];
      } else {
        ScheduledAppend(cs[1..], c, now, active);
      }
    }
  }

  function Addresses(cs: seq<Collection>): set<string> { set c | c in cs :: c.address }

  lemma AddressesCons(c: Collection, cs: seq<Collection>)
    ensures Addresses([c] + cs) == {c.address} + Addresses(cs)
  {
    assert forall x :: x in [c] + cs <==> x == c || x in cs;
  }

  lemma AddressesSnoc(cs: seq<Collection>, c: Collection)
    ensures Addresses(cs + [c]) == Addresses(cs) + {c.address}
  {
    assert forall x :: x in cs + [c] <==> x == c || x in cs;
  }

  /** A round queues every listed collection that is due and not busy, no other one, and none twice. */
  lemma {:induction false} ScheduledExactly(cs: seq<Collection>, now: int, active: set<string>)
    ensures
      var r := Scheduled(cs, now, active);
      && (forall c :: c in r ==> c in cs && ShouldRecalculate(c, now) && c.address !in active)
      && (forall c :: c in cs && ShouldRecalculate(c, now) && c.address !in active ==> c.address in Addresses(r))
      && (forall c :: c in cs && c.updatedAt == None && c.address !in active ==> c.address in Addresses(r))
      && (forall c :: c in cs && c.updatedAt.Some? && c.address !in active ==>
            var age := now - c.updatedAt.value;
            && (age >= 7200 || (c.tier == "ACTIVE" && age >= 1800) || (c.tier == "VIP" && age >= 300) ==> c.address in Addresses(r))
            && (age < 300 || (c.tier == "ACTIVE" && age < 1800) || (c.tier !in {"VIP", "ACTIVE"} && age < 7200) ==> c !in r))
      && (forall i: nat, j: nat :: i < j < |r| ==> r[i].address != r[j].address)
    decreases |cs|
  {
    if cs != [] {
      if ShouldRecalculate(cs[0], now) && cs[0].address !in active {
        var rest := Scheduled(cs[1..], now, active + {cs[0].address});
        ScheduledExactly(cs[1..], now, active + {cs[0].address});
        AddressesCons(cs[0], rest);
        assert forall i: nat :: i < |rest| ==> rest[i] in rest;
      } else {
        ScheduledExactly(cs[1..], now, active);
      }
    }
  }

  // ---------------------------------------------------------------- a round while the worker runs

  /** One turn of the loop: what the worker did before it, the collection as it is read then, and the time. */
  datatype Turn = Turn(before: seq<VitalityQueue.Event>, collection: Collection, now: int)

  function After(s: VitalityQueue.State, es: seq<VitalityQueue.Event>): VitalityQueue.State {
    if es == [] then s else VitalityQueue.Apply(After(s, es[..|es| - 1]), es[|es| - 1])
  }

  function Turned(s: VitalityQueue.State, t: Turn, stamp: string): VitalityQueue.State {
    var s1 := After(s, t.before);
    if ShouldRecalculate(t.collection, t.now) then VitalityQueue.Apply(s1, VitalityQueue.Add(TaskOf(t.collection, stamp))) else s1
  }

  /** The queue after a round that began in `s`. */
  function Rounded(s: VitalityQueue.State, ts: seq<Turn>, stamp: string): VitalityQueue.State {
    if ts == [] then s else Turned(Rounded(s, ts[..|ts| - 1], stamp), ts[|ts| - 1], stamp)
  }

  /** A round, with what the worker does meanwhile, is a run of the queue. */
  lemma {:induction false} RoundIsRun(es: seq<VitalityQueue.Event>, ts: seq<Turn>, stamp: string) returns (es': seq<VitalityQueue.Event>)
    ensures es <= es' && Rounded(VitalityQueue.Run(es), ts, stamp) == VitalityQueue.Run(es')
  {
    if ts == [] {
      es' := es;
    } else {
      var t := ts[|ts| - 1];
      var es1 := RoundIsRun(es, ts[..|ts| - 1], stamp);
      AfterIsRun(es1, t.before);
      es' := es1 + t.before;
      if ShouldRecalculate(t.collection, t.now) {
        VitalityQueue.Next(es', VitalityQueue.Add(TaskOf(t.collection, stamp)));
        es' := es' + [VitalityQueue.Add(TaskOf(t.collection, stamp))];
      }
    }
  }

  lemma {:induction false} AfterIsRun(es: seq<VitalityQueue.Event>, more: seq<VitalityQueue.Event>)
    ensures After(VitalityQueue.Run(es), more) == VitalityQueue.Run(es + more)
  {
    if more == [] {
      assert es + more == es;
    } else {
      AfterIsRun(es, more[..|more| - 1]);
      assert (es + more)[..|es + more| - 1] == es + more[..|more| - 1];
    }
  }

  /** The collection of turn `i` is due and has no outstanding task when its turn comes. */
  predicate Picked(s: VitalityQueue.State, ts: seq<Turn>, i: nat, stamp: string)
    requires i < |ts|
  {
    && ShouldRecalculate(ts[i].collection, ts[i].now)
    && ts[i].collection.address !in After(Rounded(s, ts[..i], stamp), ts[i].before).active
  }

  /** The tasks of the picked collections, in the order of the listing. */
  function PickedTasks(s: VitalityQueue.State, ts: seq<Turn>, stamp: string): seq<VitalityQueue.Task> {
    if ts == [] then []
    else PickedTasks(s, ts[..|ts| - 1], stamp) + if Picked(s, ts, |ts| - 1, stamp) then [TaskOf(ts[|ts| - 1].collection, stamp)] else []
  }

  ghost predicate ByWorker(es: seq<VitalityQueue.Event>) { forall e :: e in es ==> !e.Add? }

  /** A listing has every collection once, and only the worker runs beside the round. */
  ghost predicate Listing(ts: seq<Turn>) {
    && (forall i: nat, j: nat :: i < j < |ts| ==> ts[i].collection.address != ts[j].collection.address)
    && (forall i: nat :: i < |ts| ==> ByWorker(ts[i].before))
  }

  /** The worker accepts nothing and only frees addresses: even its retry is refused. */
  lemma {:induction false} WorkerFrees(s: VitalityQueue.State, es: seq<VitalityQueue.Event>)
    requires VitalityQueue.Inv(s) && ByWorker(es)
    ensures
      var s' := After(s, es);
      VitalityQueue.Inv(s') && s'.accepted == s.accepted && s'.active <= s.active
  {
    if es != [] {
      WorkerFrees(s, es[..|es| - 1]);
      var s1 := After(s, es[..|es| - 1]);
      VitalityQueue.ApplyInv(s1, es[|es| - 1]);
      if s1.worker.Backoff? {
        VitalityQueue.RetryRefused(s1);
      }
    }
  }

  /** Only the worker frees addresses, and only the round's own turns make more of them busy. */
  lemma {:induction false} RoundInv(s: VitalityQueue.State, ts: seq<Turn>, stamp: string)
    requires VitalityQueue.Inv(s) && Listing(ts)
    ensures
      var s' := Rounded(s, ts, stamp);
      && VitalityQueue.Inv(s') && s'.accepted == s.accepted + PickedTasks(s, ts, stamp)
      && forall a :: a in s'.active ==> a in s.active || exists t :: t in ts && t.collection.address == a
  {
    if ts != [] {
      var ts0, t := ts[..|ts| - 1], ts[|ts| - 1];
      RoundInv(s, ts0, stamp);
      WorkerFrees(Rounded(s, ts0, stamp), t.before);
      VitalityQueue.AddInv(After(Rounded(s, ts0, stamp), t.before), TaskOf(t.collection, stamp));
      assert t in ts && forall x :: x in ts0 ==> x in ts;
    }
  }

  lemma FreeIsPicked(s: VitalityQueue.State, ts: seq<Turn>, i: nat, stamp: string)
    requires VitalityQueue.Inv(s) && Listing(ts) && i < |ts|
    requires ShouldRecalculate(ts[i].collection, ts[i].now) && ts[i].collection.address !in s.active
    ensures Picked(s, ts, i, stamp)
  {
    RoundInv(s, ts[..i], stamp);
    WorkerFrees(Rounded(s, ts[..i], stamp), ts[i].before);
  }

  lemma {:induction false} PickedAreListed(s: VitalityQueue.State, ts: seq<Turn>, stamp: string)
    ensures forall x :: x in PickedTasks(s, ts, stamp) ==> exists i: nat :: i < |ts| && x == TaskOf(ts[i].collection, stamp)
  {
    if ts != [] {
      var n := |ts| - 1;
      PickedAreListed(s, ts[..n], stamp);
      forall x | x in PickedTasks(s, ts, stamp) ensures exists i: nat :: i < |ts| && x == TaskOf(ts[i].collection, stamp) {
        if x in PickedTasks(s, ts[..n], stamp) {
          var i: nat :| i < n && x == TaskOf(ts[..n][i].collection, stamp);
          assert x == TaskOf(ts[i].collection, stamp);
        } else {
          assert x == TaskOf(ts[n].collection, stamp);
        }
      }
    }
  }

  /** What was picked before the last turn is for other collections. */
  lemma PickedBefore(s: VitalityQueue.State, ts: seq<Turn>, stamp: string)
    requires Listing(ts) && ts != []
    ensures forall x :: x in PickedTasks(s, ts[..|ts| - 1], stamp) ==> x.address != ts[|ts| - 1].collection.address
  {
    PickedAreListed(s, ts[..|ts| - 1], stamp);
  }

  ghost predicate ForDifferent(q: seq<VitalityQueue.Task>) {
    forall i: nat, j: nat :: i < j < |q| ==> q[i].address != q[j].address
  }

  lemma {:induction false} PickedOnce(s: VitalityQueue.State, ts: seq<Turn>, stamp: string)
    requires Listing(ts)
    ensures ForDifferent(PickedTasks(s, ts, stamp))
  {
    if ts != [] {
      PickedOnce(s, ts[..|ts| - 1], stamp);
      PickedBefore(s, ts, stamp);
    }
  }

  lemma {:induction false} PickedIff(s: VitalityQueue.State, ts: seq<Turn>, i: nat, stamp: string)
    requires Listing(ts) && i < |ts|
    ensures TaskOf(ts[i].collection, stamp) in PickedTasks(s, ts, stamp) <==> Picked(s, ts, i, stamp)
    decreases |ts|
  {
    var n := |ts| - 1;
    PickedBefore(s, ts, stamp);
    if i < n {
      PickedIff(s, ts[..n], i, stamp);
      assert ts[..n][..i] == ts[..i];
    }
  }

  /** The round queues, once each and in the order of the listing, the collections that are due and free at their
      turn.  Those that were free when it began are free at their turn, whatever the worker does meanwhile; a busy
      one is queued only if it has been freed. */
  lemma RoundExactly(es: seq<VitalityQueue.Event>, ts: seq<Turn>, stamp: string)
    requires Listing(ts)
    ensures
      var s := VitalityQueue.Run(es);
      var picked := PickedTasks(s, ts, stamp);
      && Rounded(s, ts, stamp).accepted == s.accepted + picked
      && (forall i: nat :: i < |ts| ==>
            var c := ts[i].collection;
            var wait := if c.tier == "VIP" then 300 else if c.tier == "ACTIVE" then 1800 else 7200;
            var due := c.updatedAt == None || ts[i].now >= c.updatedAt.value + wait;
            && (TaskOf(c, stamp) in picked <==> Picked(s, ts, i, stamp))
            && (due && c.address !in s.active ==> Picked(s, ts, i, stamp))
            && (!due ==> !Picked(s, ts, i, stamp)))
      && (forall x :: x in picked ==> exists i: nat :: i < |ts| && x == TaskOf(ts[i].collection, stamp))
      && ForDifferent(picked)
  {
    var s := VitalityQueue.Run(es);
    VitalityQueue.RunInv(es);
    RoundInv(s, ts, stamp);
    PickedAreListed(s, ts, stamp);
    PickedOnce(s, ts, stamp);
    forall i: nat | i < |ts|
      ensures
        var c := ts[i].collection;
        var wait := if c.tier == "VIP" then 300 else if c.tier == "ACTIVE" then 1800 else 7200;
        var due := c.updatedAt == None || ts[i].now >= c.updatedAt.value + wait;
        && (TaskOf(c, stamp) in PickedTasks(s, ts, stamp) <==> Picked(s, ts, i, stamp))
        && (due && c.address !in s.active ==> Picked(s, ts, i, stamp))
        && (!due ==> !Picked(s, ts, i, stamp))
    {
      PickedIff(s, ts, i, stamp);
      DueAfter(ts[i].collection, ts[i].now, stamp);
      if ShouldRecalculate(ts[i].collection, ts[i].now) && ts[i].collection.address !in s.active {
        FreeIsPicked(s, ts, i, stamp);
      }
    }
  }

  class Task {
    const id: string
    const address: string
    const priority: nat
    const maxRetries: int
    var retryCount: int

    constructor (id: string, address: string, priority: nat)
      ensures this.id == id && this.address == address && this.priority == priority && maxRetries == 2 && retryCount == 0
    {
      this.id, this.address, this.priority, maxRetries, retryCount := id, address, priority, 2, 0;
    }

    function View(): VitalityQueue.Task
      reads this
    {
      VitalityQueue.Task(id, address, priority, retryCount, maxRetries)
    }
  }

  class Manager {
    var queue: seq<Task>
    var active: set<string>
    var history: seq<(string, Status)>

    constructor ()
      ensures queue == [] && active == {} && history == []
    {
      queue, active, history := [], {}, [];
    }

    /** The task made for a collection. */
    predicate Queued(task: Task, c: Collection, stamp: string) {
      task.id == "vitality_" + c.address + "_" + stamp && task.address == c.address
      && task.priority == if c.tier == "VIP" then 3 else if c.tier == "ACTIVE" then 2 else 1
    }

    /** Queue `q` is `q0` followed by the tasks made for `r`. */
    ghost predicate Extended(q0: seq<Task>, q: seq<Task>, r: seq<Collection>, stamp: string) {
      && |q| == |q0| + |r| && q[..|q0|] == q0
      && forall i: nat :: i < |r| ==> Queued(q[|q0| + i], r[i], stamp)
    }

    method AddTask(task: Task)
      modifies this`queue, this`active
      ensures queue == if task.address in old(active) then old(queue) else old(queue) + [task]
      ensures active == old(active) + {task.address}
    {
      if task.address in active {
        return;
      }
      queue := queue + [task];
      active := active + {task.address};
    }

    /** Executes a task taken from the queue, while whose address is still active.  Whatever happens the
        queue stays as it is and only the task's address becomes free: the retry is counted, then dropped. */
    method ExecuteTask(task: Task, result: Result)
      requires task.address in active
      modifies this, task
      ensures queue == old(queue) && active == old(active) - {task.address}
      ensures history == old(history) + [(task.id, if result.Calculated? then Success else Failure)]
      ensures task.retryCount ==
        old(task.retryCount) + if result.Failed? && old(task.retryCount) < task.maxRetries then 1 else 0
    {
      match result {
        case Calculated => history := history + [(task.id, Success)];
        case CollectionMissing => history := history + [(task.id, Failure)];
        case Failed =>
          history := history + [(task.id, Failure)];
          if task.retryCount < task.maxRetries {
            task.retryCount := task.retryCount + 1;
            AddTask(task);
          }
      }
      active := active - {task.address};
    }

    /** The body of the scheduling loop, for one collection: a task of priority 3, 2 or 1 is queued for a free one
        never calculated, or not for 300, 1800 or 7200 seconds. */
    method ScheduleCollection(c: Collection, now: int, stamp: string)
      modifies this`queue, this`active
      ensures
        if ShouldRecalculate(c, now) && c.address !in old(active)
        then Extended(old(queue), queue, [c], stamp) && active == old(active) + {c.address}
        else queue == old(queue) && active == old(active)
      ensures
        var wait := if c.tier == "VIP" then 300 else if c.tier == "ACTIVE" then 1800 else 7200;
        if c.address !in old(active) && (c.updatedAt == None || now >= c.updatedAt.value + wait)
        then |queue| == |old(queue)| + 1 && queue[|old(queue)|].address == c.address
             && queue[|old(queue)|].priority == if c.tier == "VIP" then 3 else if c.tier == "ACTIVE" then 2 else 1
        else queue == old(queue)
    {
      if ShouldRecalculate(c, now) {
        var task := new Task("vitality_" + c.address + "_" + stamp, c.address, Priority(c.tier));
        AddTask(task);
      }
    }

    lemma ExtendedTwice(q0: seq<Task>, q1: seq<Task>, q2: seq<Task>, r: seq<Collection>, c: Collection, stamp: string)
      requires Extended(q0, q1, r, stamp) && Extended(q1, q2, [c], stamp)
      ensures Extended(q0, q2, r + [c], stamp)
    {
      assert q2[..|q0|] == q1[..|q0|];
      forall i: nat | i < |r| + 1 ensures Queued(q2[|q0| + i], (r + [c])[i], stamp) {
        if i < |r| {
          assert q2[|q0| + i] == q2[..|q1|][|q0| + i] == q1[|q0| + i];
        } else {
          assert q2[|q1| + 0] == q2[|q0| + i];
        }
      }
    }

    lemma OneTurnMore(
      q0: seq<Task>, q1: seq<Task>, q2: seq<Task>, a0: set<string>, a1: set<string>, a2: set<string>,
      cs: seq<Collection>, c: Collection, now: int, stamp: string)
      requires Extended(q0, q1, Scheduled(cs, now, a0), stamp) && a1 == a0 + Addresses(Scheduled(cs, now, a0))
      requires if ShouldRecalculate(c, now) && c.address !in a1 then Extended(q1, q2, [c], stamp) && a2 == a1 + {c.address}
               else q2 == q1 && a2 == a1
      ensures Extended(q0, q2, Scheduled(cs + [c], now, a0), stamp) && a2 == a0 + Addresses(Scheduled(cs + [c], now, a0))
    {
      var r := Scheduled(cs, now, a0);
      ScheduledAppend(cs, c, now, a0);
      AddressesSnoc(r, c);
      if ShouldRecalculate(c, now) && c.address !in a1 {
        ExtendedTwice(q0, q1, q2, r, c, stamp);
      }
    }

    /** One scheduling round; `stamp` is the time as text.  The new tasks come after the queued ones, in
        the order of the listing. */
    method ScheduleVitalityTasks(collections: seq<Collection>, now: int, stamp: string)
      modifies this`queue, this`active
      ensures active == old(active) + Addresses(Scheduled(collections, now, old(active)))
      ensures Extended(old(queue), queue, Scheduled(collections, now, old(active)), stamp)
    {
      ghost var q0, a0 := queue, active;
      for i := 0 to |collections|
        invariant active == a0 + Addresses(Scheduled(collections[..i], now, a0))
        invariant Extended(q0, queue, Scheduled(collections[..i], now, a0), stamp)
      {
        ghost var q1, a1 := queue, active;
        ScheduleCollection(collections[i], now, stamp);
        assert collections[..i + 1] == collections[..i] + [collections[i]];
        OneTurnMore(q0, q1, queue, a0, a1, active, collections[..i], collections[i], now, stamp);
      }
      assert collections[..|collections|] == collections;
    }

    method TriggerImmediateCalculation(address: string, found: bool, stamp: string) returns (ok: bool)
      modifies this`queue, this`active
      ensures ok == found
      ensures !found || address in old(active) ==> queue == old(queue) && active == old(active)
      ensures found && address !in old(active) ==>
        && active == old(active) + {address}
        && |queue| == |old(queue)| + 1 && queue[..|old(queue)|] == old(queue)
        && queue[|old(queue)|].id == "manual_vitality_" + address + "_" + stamp
        && queue[|old(queue)|].address == address && queue[|old(queue)|].priority == 4
    {
      if !found {
        return false;
      }
      var task := new Task("manual_vitality_" + address + "_" + stamp, address, 4);
      AddTask(task);
      ok := true;
    }
  }
}
