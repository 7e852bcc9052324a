/** The two-layer cache while calls are in flight.  A call waits for Redis between the layers, and other calls
    run meanwhile: every call is cut at those points.  Any Redis access may raise, and a local entry may be
    evicted at any time. */
module CacheCalls {
  import opened TimedStore
  import Whole = CacheLayers

  /** What one `set` stored.  The layers hold values together with the `set` that they come from. */
  datatype Write<+V> = Write(key: string, value: V, at: real, ttl: real)

  /** A value that a `get` returned at `at`. */
  datatype Answer<+V> = Answer(key: string, write: Write<V>, at: real)

  datatype Request<+V> =
    | Get(key: string)
    | Set(key: string, data: Option<V>, ttl: real, collection: Option<string>)
    | Delete(key: string)
    | Invalidate(address: string)
    | InvalidateAll

  /** What a call does next. */
  datatype Stage<+V> =
    | Getting(key: string)
    | Filling(key: string, write: Write<V>)
    | Setting(write: Write<V>, collection: Option<string>)
    | Indexing(key: string, address: string)
    | Deleting(key: string)
    | Looking(address: string)
    | Removing(address: string, keys: set<string>)
    | Dropping(keys: set<string>, count: nat)
    | Flushing

  /** A call of process `p` whose last action was at `since`. */
  datatype Flight<+V> = Flight(p: nat, stage: Stage<V>, since: real)

  /** What calls changed, in the order in which Redis did it. */
  datatype Effect<+V> =
    | Put(write: Write<V>, expires: real)
    | Under(collection: string, key: string)
    | Removed(key: string)
    | Invalidated(address: string)
    | Cleared

  datatype State<V> = State(
    layers: Whole.State<Write<V>>, flights: seq<Flight<V>>,
    written: seq<Write<V>>, answers: seq<Answer<V>>, log: seq<Effect<V>>)

  datatype Event<V> =
    | Tick(elapsed: real)
    | Start(p: nat, request: Request<V>)
    | Step(i: nat)
    | Raise(i: nat)
    | Evict(p: nat, key: string)

  function SetLocal<V>(s: State<V>, p: nat, m: Store<string, Write<V>>): State<V>
    requires p < |s.layers.locals|
  {
    s.(layers := s.layers.(locals := s.layers.locals[p := m]))
  }

  function Begin<V>(s: State<V>, p: nat, stage: Stage<V>): State<V> {
    s.(flights := s.flights + [Flight(p, stage, s.layers.now)])
  }

  /** What a call does before it waits for the first time. */
  function StartCall<V>(s: State<V>, p: nat, r: Request<V>): State<V>
    requires p < |s.layers.locals|
  {
    var local, now := s.layers.locals[p], s.layers.now;
    match r
    case Get(k) =>
      if Readable(local, k, now) then s.(answers := s.answers + [Answer(k, local[k].value, now)]) else Begin(s, p, Getting(k))
    case Set(_, None, _, _) => s
    case Set(k, Some(v), ttl, c) =>
      var w := Write(k, v, now, ttl);
      Begin(SetLocal(s, p, TimedStore.Put(local, k, w, now, ttl)).(written := s.written + [w]), p, Setting(w, c))
    case Delete(k) => Begin(SetLocal(s, p, local - {k}), p, Deleting(k))
    case Invalidate(a) => Begin(s, p, Looking(a))
    case InvalidateAll => Begin(SetLocal(s, p, map[]), p, Flushing)
  }

  function Ends<V>(s: State<V>, i: nat): State<V>
    requires i < |s.flights|
  {
    s.(flights := s.flights[..i] + s.flights[i + 1..])
  }

  function GoesOn<V>(s: State<V>, i: nat, stage: Stage<V>): State<V>
    requires i < |s.flights|
  {
    s.(flights := s.flights[i := Flight(s.flights[i].p, stage, s.layers.now)])
  }

  /** The next action of a call; all but the filling and the dropping are Redis accesses. */
  function StepCall<V>(s: State<V>, i: nat): State<V>
    requires i < |s.flights| && s.flights[i].p < |s.layers.locals|
  {
    var p, l := s.flights[i].p, s.layers;
    match s.flights[i].stage
    case Getting(k) => if Readable(l.redis, k, l.now) then GoesOn(s, i, Filling(k, l.redis[k].value)) else Ends(s, i)
    case Filling(k, w) =>
      Ends(SetLocal(s, p, TimedStore.Put(l.locals[p], k, w, l.now, Whole.BACK_POPULATION)).(answers := s.answers + [Answer(k, w, l.now)]), i)
    case Setting(w, c) =>
      if w.ttl <= 0.0 then Ends(s, i)
      else
        var s' := s.(layers := l.(redis := TimedStore.Put(l.redis, w.key, w, l.now, w.ttl)), log := s.log + [Put(w, l.now + w.ttl)]);
        if c == None then Ends(s', i) else GoesOn(s', i, Indexing(w.key, c.value))
    case Indexing(k, c) =>
      Ends(s.(layers := l.(index := l.index[c := Whole.Members(l, c) + {k}]), log := s.log + [Under(c, k)]), i)
    case Deleting(k) => Ends(s.(layers := l.(redis := l.redis - {k}), log := s.log + [Removed(k)]), i)
    case Looking(a) => if Whole.Members(l, a) == {} then Ends(s, i) else GoesOn(s, i, Removing(a, Whole.Members(l, a)))
    case Removing(a, keys) =>
      var s' := s.(layers := l.(redis := l.redis - keys, index := l.index - {a}), log := s.log + [Invalidated(a)]);
      GoesOn(s', i, Dropping(keys, |Whole.LiveIn(l.redis, keys, l.now)|))
    case Dropping(keys, _) => Ends(SetLocal(s, p, l.locals[p] - keys), i)
    case Flushing => Ends(s.(layers := l.(redis := map[], index := map[]), log := s.log + [Cleared]), i)
  }

  /** No call waits longer than `delay` between two of its actions; it may raise instead. */
  function Apply<V>(s: State<V>, e: Event<V>, delay: real): State<V> {
    match e
    case Tick(d) => if d < 0.0 then s else s.(layers := s.layers.(now := s.layers.now + d))
    case Start(p, r) => if p < |s.layers.locals| then StartCall(s, p, r) else s
    case Step(i) =>
      if i < |s.flights| && s.flights[i].p < |s.layers.locals| && s.layers.now <= s.flights[i].since + delay then StepCall(s, i) else s
    case Raise(i) => if i < |s.flights| then Ends(s, i) else s
    case Evict(p, k) => if p < |s.layers.locals| then SetLocal(s, p, s.layers.locals[p] - {k}) else s
  }

  function Initial<V>(processes: nat, now: real): State<V> { State(Whole.Initial(processes, now), [], [], [], []) }

  function Run<V>(processes: nat, now: real, es: seq<Event<V>>, delay: real): State<V> {
    if es == [] then Initial(processes, now) else Apply(Run(processes, now, es[..|es| - 1], delay), es[|es| - 1], delay)
  }

  // ---------------------------------------------------------------- how stale a value can be

  predicate WriteOk<V(==)>(s: State<V>, w: Write<V>, key: string) {
    w in s.written && w.key == key && w.at <= s.layers.now
  }

  ghost predicate StoreOk<V>(s: State<V>, m: Store<string, Write<V>>, slack: real) {
    forall k :: k in m ==> WriteOk(s, m[k].value, k) && m[k].expires <= m[k].value.at + m[k].value.ttl + slack
  }

  ghost predicate FlightOk<V>(s: State<V>, f: Flight<V>, delay: real) {
    && f.since <= s.layers.now
    && match f.stage
       case Filling(k, w) => WriteOk(s, w, k) && f.since < w.at + w.ttl + delay
       case Setting(w, _) => WriteOk(s, w, w.key) && f.since == w.at
       case _ => true
  }

  ghost predicate AnswerOk<V>(s: State<V>, a: Answer<V>, delay: real) {
    WriteOk(s, a.write, a.key) && a.write.at <= a.at < a.write.at + a.write.ttl + Whole.BACK_POPULATION + 2.0 * delay
  }

  ghost predicate Justified<V>(s: State<V>, delay: real) {
    && StoreOk(s, s.layers.redis, delay)
    && (forall p: nat :: p < |s.layers.locals| ==> StoreOk(s, s.layers.locals[p], Whole.BACK_POPULATION + 2.0 * delay))
    && (forall i: nat :: i < |s.flights| ==> FlightOk(s, s.flights[i], delay))
    && (forall i: nat :: i < |s.answers| ==> AnswerOk(s, s.answers[i], delay))
  }

  /** Time passes and writes are added: what was sound stays so. */
  lemma StillOk<V>(s: State<V>, s': State<V>, delay: real)
    requires s.layers.now <= s'.layers.now && forall w :: w in s.written ==> w in s'.written
    ensures forall m, slack :: StoreOk(s, m, slack) ==> StoreOk(s', m, slack)
    ensures forall f :: FlightOk(s, f, delay) ==> FlightOk(s', f, delay)
    ensures forall a :: AnswerOk(s, a, delay) ==> AnswerOk(s', a, delay)
  {}

  lemma EndsOk<V>(s: State<V>, i: nat, delay: real)
    requires Justified(s, delay) && i < |s.flights|
    ensures Justified(Ends(s, i), delay)
  {
    var s' := Ends(s, i);
    StillOk(s, s', delay);
    assert forall j: nat :: j < |s'.flights| ==> s'.flights[j] == s.flights[if j < i then j else j + 1];
  }

  lemma GoesOnOk<V>(s: State<V>, i: nat, stage: Stage<V>, delay: real)
    requires Justified(s, delay) && i < |s.flights|
    requires FlightOk(s, Flight(s.flights[i].p, stage, s.layers.now), delay)
    ensures Justified(GoesOn(s, i, stage), delay)
  {
    StillOk(s, GoesOn(s, i, stage), delay);
  }

  lemma StartJustified<V>(s: State<V>, p: nat, r: Request<V>, delay: real)
    requires Justified(s, delay) && p < |s.layers.locals| && 0.0 <= delay
    ensures Justified(StartCall(s, p, r), delay)
  {
    var s' := StartCall(s, p, r);
    StillOk(s, s', delay);
    assert StoreOk(s, s.layers.locals[p], Whole.BACK_POPULATION + 2.0 * delay);
    forall i: nat | i < |s'.flights| ensures FlightOk(s', s'.flights[i], delay) {
      assert i < |s.flights| ==> FlightOk(s, s.flights[i], delay);
    }
    forall i: nat | i < |s'.answers| ensures AnswerOk(s', s'.answers[i], delay) {
      assert i < |s.answers| ==> AnswerOk(s, s.answers[i], delay);
    }
    forall q: nat | q < |s'.layers.locals| ensures StoreOk(s', s'.layers.locals[q], Whole.BACK_POPULATION + 2.0 * delay) {
      assert StoreOk(s, s.layers.locals[q], Whole.BACK_POPULATION + 2.0 * delay);
    }
  }

  /** A local store changes. */
  lemma LocalOk<V>(s: State<V>, p: nat, m: Store<string, Write<V>>, delay: real)
    requires Justified(s, delay) && p < |s.layers.locals| && StoreOk(s, m, Whole.BACK_POPULATION + 2.0 * delay)
    ensures Justified(SetLocal(s, p, m), delay)
  {
    StillOk(s, SetLocal(s, p, m), delay);
  }

  lemma FillJustified<V>(s: State<V>, i: nat, delay: real)
    requires Justified(s, delay) && 0.0 <= delay && i < |s.flights| && s.flights[i].p < |s.layers.locals|
    requires s.flights[i].stage.Filling? && s.layers.now <= s.flights[i].since + delay
    ensures Justified(StepCall(s, i), delay)
  {
    var p, k, w := s.flights[i].p, s.flights[i].stage.key, s.flights[i].stage.write;
    var m := TimedStore.Put(s.layers.locals[p], k, w, s.layers.now, Whole.BACK_POPULATION);
    assert FlightOk(s, s.flights[i], delay);
    assert StoreOk(s, s.layers.locals[p], Whole.BACK_POPULATION + 2.0 * delay);
    LocalOk(s, p, m, delay);
    var s1 := SetLocal(s, p, m);
    var s2 := s1.(answers := s.answers + [Answer(k, w, s.layers.now)]);
    StillOk(s1, s2, delay);
    assert AnswerOk(s2, Answer(k, w, s.layers.now), delay);
    assert Justified(s2, delay);
    EndsOk(s2, i, delay);
  }

  /** Redis changes; `redis` is sound. */
  lemma RedisOk<V>(s: State<V>, s': State<V>, delay: real)
    requires Justified(s, delay) && s' == s.(layers := s.layers.(redis := s'.layers.redis, index := s'.layers.index), log := s'.log)
    requires StoreOk(s, s'.layers.redis, delay)
    ensures Justified(s', delay)
  {
    StillOk(s, s', delay);
  }

  lemma SetRedisJustified<V>(s: State<V>, i: nat, delay: real)
    requires Justified(s, delay) && i < |s.flights| && s.flights[i].p < |s.layers.locals|
    requires s.flights[i].stage.Setting? && s.layers.now <= s.flights[i].since + delay
    ensures Justified(StepCall(s, i), delay)
  {
    var w, c, l := s.flights[i].stage.write, s.flights[i].stage.collection, s.layers;
    assert FlightOk(s, s.flights[i], delay);
    if w.ttl <= 0.0 {
      EndsOk(s, i, delay);
    } else {
      var s1 := s.(layers := l.(redis := TimedStore.Put(l.redis, w.key, w, l.now, w.ttl)), log := s.log + [Put(w, l.now + w.ttl)]);
      RedisOk(s, s1, delay);
      if c == None {
        EndsOk(s1, i, delay);
      } else {
        GoesOnOk(s1, i, Indexing(w.key, c.value), delay);
      }
    }
  }

  /** The steps that only remove entries or change the index. */
  lemma RemovalJustified<V>(s: State<V>, i: nat, delay: real)
    requires Justified(s, delay) && i < |s.flights| && s.flights[i].p < |s.layers.locals|
    requires
      var x := s.flights[i].stage;
      x.Indexing? || x.Deleting? || x.Removing? || x.Flushing?
    ensures Justified(StepCall(s, i), delay)
  {
    var l := s.layers;
    match s.flights[i].stage
    case Indexing(k, c) =>
      var s1 := s.(layers := l.(index := l.index[c := Whole.Members(l, c) + {k}]), log := s.log + [Under(c, k)]);
      RedisOk(s, s1, delay);
      EndsOk(s1, i, delay);
    case Deleting(k) =>
      var s1 := s.(layers := l.(redis := l.redis - {k}), log := s.log + [Removed(k)]);
      RedisOk(s, s1, delay);
      EndsOk(s1, i, delay);
    case Removing(a, keys) =>
      var s1 := s.(layers := l.(redis := l.redis - keys, index := l.index - {a}), log := s.log + [Invalidated(a)]);
      RedisOk(s, s1, delay);
      GoesOnOk(s1, i, Dropping(keys, |Whole.LiveIn(l.redis, keys, l.now)|), delay);
    case Flushing =>
      var s1 := s.(layers := l.(redis := map[], index := map[]), log := s.log + [Cleared]);
      RedisOk(s, s1, delay);
      EndsOk(s1, i, delay);
  }

  lemma StepJustified<V>(s: State<V>, i: nat, delay: real)
    requires Justified(s, delay) && 0.0 <= delay && i < |s.flights| && s.flights[i].p < |s.layers.locals|
    requires s.layers.now <= s.flights[i].since + delay
    ensures Justified(StepCall(s, i), delay)
  {
    var p, l := s.flights[i].p, s.layers;
    match s.flights[i].stage
    case Getting(k) =>
      if Readable(l.redis, k, l.now) {
        GoesOnOk(s, i, Filling(k, l.redis[k].value), delay);
      } else {
        EndsOk(s, i, delay);
      }
    case Filling(_, _) => FillJustified(s, i, delay);
    case Setting(_, _) => SetRedisJustified(s, i, delay);
    case Looking(a) =>
      if Whole.Members(l, a) == {} {
        EndsOk(s, i, delay);
      } else {
        GoesOnOk(s, i, Removing(a, Whole.Members(l, a)), delay);
      }
    case Dropping(keys, _) =>
      assert StoreOk(s, l.locals[p], Whole.BACK_POPULATION + 2.0 * delay);
      LocalOk(s, p, l.locals[p] - keys, delay);
      EndsOk(SetLocal(s, p, l.locals[p] - keys), i, delay);
    case _ => RemovalJustified(s, i, delay);
  }

  lemma ApplyJustified<V>(s: State<V>, e: Event<V>, delay: real)
    requires Justified(s, delay) && 0.0 <= delay
    ensures Justified(Apply(s, e, delay), delay)
  {
    match e
    case Tick(d) => StillOk(s, Apply(s, e, delay), delay);
    case Start(p, r) => if p < |s.layers.locals| { StartJustified(s, p, r, delay); }
    case Step(i) => if Apply(s, e, delay) != s { StepJustified(s, i, delay); }
    case Raise(i) => if i < |s.flights| { EndsOk(s, i, delay); }
    case Evict(p, k) =>
      if p < |s.layers.locals| {
        assert StoreOk(s, s.layers.locals[p], Whole.BACK_POPULATION + 2.0 * delay);
        LocalOk(s, p, s.layers.locals[p] - {k}, delay);
      }
  }

  lemma {:induction false} RunJustified<V>(processes: nat, now: real, es: seq<Event<V>>, delay: real)
    requires 0.0 <= delay
    ensures Justified(Run(processes, now, es, delay), delay)
  {
    if es != [] {
      RunJustified(processes, now, es[..|es| - 1], delay);
      ApplyJustified(Run(processes, now, es[..|es| - 1], delay), es[|es| - 1], delay);
    }
  }

  /** Whatever the processes did, however their calls interleaved and Redis failed, every value that a `get`
      returned was written under that key by a `set` that began less than its time to live plus 60 seconds,
      and two delays, before. */
  lemma GetIsRecent<V>(processes: nat, now: real, es: seq<Event<V>>, delay: real, i: nat)
    requires 0.0 <= delay && i < |Run(processes, now, es, delay).answers|
    ensures
      var s := Run(processes, now, es, delay);
      var a := s.answers[i];
      && a.write in s.written && a.write.key == a.key
      && a.write.at <= a.at < a.write.at + a.write.ttl + 60.0 + 2.0 * delay
  {
    RunJustified(processes, now, es, delay);
    assert AnswerOk(Run(processes, now, es, delay), Run(processes, now, es, delay).answers[i], delay);
  }

  // ---------------------------------------------------------------- whole calls are undisturbed ones

  function Steps<V>(s: State<V>, n: nat, delay: real): State<V>
    decreases n
  {
    if n == 0 then s else Steps(Apply(s, Step(0), delay), n - 1, delay)
  }

  /** The only call in flight takes its next action. */
  lemma Alone<V>(s: State<V>, p: nat, stage: Stage<V>, n: nat, delay: real)
    requires 0.0 <= delay && p < |s.layers.locals| && s.flights == [Flight(p, stage, s.layers.now)]
    ensures Steps(s, n + 1, delay) == Steps(StepCall(s, 0), n, delay)
  {}

  lemma EndsAlone<V>(s: State<V>)
    requires |s.flights| == 1
    ensures Ends(s, 0) == s.(flights := []) && forall x :: s.flights[0 := x] == [x]
  {}

  /** A `get` that nothing interrupts. */
  lemma UndisturbedGet<V>(s: State<V>, p: nat, k: string, delay: real) returns (n: nat)
    requires 0.0 <= delay && p < |s.layers.locals| && s.flights == []
    ensures
      var s' := Steps(StartCall(s, p, Get(k)), n, delay);
      var (layers, found) := Whole.DoGet(s.layers, p, k, 1);
      && s' == s.(layers := layers, answers := s'.answers)
      && s'.answers == if found.Some? then s.answers + [Answer(k, found.value, s.layers.now)] else s.answers
  {
    if Readable(s.layers.locals[p], k, s.layers.now) {
      n := 0;
    } else {
      var s1 := s.(flights := [Flight(p, Getting(k), s.layers.now)]);
      assert StartCall(s, p, Get(k)) == s1;
      EndsAlone(s1);
      if Readable(s.layers.redis, k, s.layers.now) {
        var w := s.layers.redis[k].value;
        var s2 := s.(flights := [Flight(p, Filling(k, w), s.layers.now)]);
        Alone(s1, p, Getting(k), 1, delay);
        Alone(s2, p, Filling(k, w), 0, delay);
        EndsAlone(s2);
        n := 2;
      } else {
        Alone(s1, p, Getting(k), 0, delay);
        n := 1;
      }
    }
  }

  /** A `set` that nothing interrupts. */
  lemma UndisturbedSet<V>(s: State<V>, p: nat, k: string, v: V, ttl: real, c: Option<string>, delay: real) returns (n: nat)
    requires 0.0 <= delay && p < |s.layers.locals| && s.flights == []
    ensures
      var w := Write(k, v, s.layers.now, ttl);
      var s' := Steps(StartCall(s, p, Set(k, Some(v), ttl, c)), n, delay);
      s' == s.(layers := Whole.DoSet(s.layers, p, k, Some(w), ttl, c, 2).0, written := s.written + [w], log := s'.log)
  {
    var w, l := Write(k, v, s.layers.now, ttl), s.layers;
    var s1 := StartCall(s, p, Set(k, Some(v), ttl, c));
    assert s1.flights == [Flight(p, Setting(w, c), l.now)];
    EndsAlone(s1);
    if ttl <= 0.0 || c == None {
      Alone(s1, p, Setting(w, c), 0, delay);
      n := 1;
    } else {
      var s2 := StepCall(s1, 0);
      assert s2.flights == [Flight(p, Indexing(k, c.value), l.now)];
      Alone(s1, p, Setting(w, c), 1, delay);
      Alone(s2, p, Indexing(k, c.value), 0, delay);
      EndsAlone(s2);
      n := 2;
    }
  }

  /** Deletions and clearings that nothing interrupts. */
  lemma UndisturbedDelete<V>(s: State<V>, p: nat, k: string, delay: real)
    requires 0.0 <= delay && p < |s.layers.locals| && s.flights == []
    ensures
      var s1, s2 := Steps(StartCall(s, p, Delete(k)), 1, delay), Steps(StartCall(s, p, InvalidateAll), 1, delay);
      && s1 == s.(layers := Whole.DoDelete(s.layers, p, k, 1).0, log := s1.log)
      && s2 == s.(layers := Whole.DoInvalidateAll(s.layers, p, 1).0, log := s2.log)
  {
    var s1, s2 := StartCall(s, p, Delete(k)), StartCall(s, p, InvalidateAll);
    assert s1.flights == [Flight(p, Deleting(k), s.layers.now)] && s2.flights == [Flight(p, Flushing, s.layers.now)];
    Alone(s1, p, Deleting(k), 0, delay);
    Alone(s2, p, Flushing, 0, delay);
    EndsAlone(s1);
    EndsAlone(s2);
  }

  /** An invalidation that nothing interrupts. */
  lemma UndisturbedInvalidate<V>(s: State<V>, p: nat, a: string, delay: real) returns (n: nat)
    requires 0.0 <= delay && p < |s.layers.locals| && s.flights == []
    ensures
      var s' := Steps(StartCall(s, p, Invalidate(a)), n, delay);
      s' == s.(layers := Whole.DoInvalidate(s.layers, p, a, 2).0, log := s'.log)
  {
    var l, keys := s.layers, Whole.Members(s.layers, a);
    var s1 := StartCall(s, p, Invalidate(a));
    assert s1.flights == [Flight(p, Looking(a), l.now)];
    EndsAlone(s1);
    if keys == {} {
      Alone(s1, p, Looking(a), 0, delay);
      n := 1;
    } else {
      var s2 := s1.(flights := [Flight(p, Removing(a, keys), l.now)]);
      var s3 := StepCall(s2, 0);
      var count := |Whole.LiveIn(l.redis, keys, l.now)|;
      EndsAlone(s2);
      assert s3.flights == [Flight(p, Dropping(keys, count), l.now)];
      EndsAlone(s3);
      Alone(s1, p, Looking(a), 2, delay);
      Alone(s2, p, Removing(a, keys), 1, delay);
      Alone(s3, p, Dropping(keys, count), 0, delay);
      n := 3;
    }
  }

  lemma RaiseEnds<V>(s: State<V>, f: Flight<V>, delay: real)
    requires s.flights == [f]
    ensures Apply(s, Raise(0), delay) == s.(flights := [])
  {
    EndsAlone(s);
  }

  /** A `set` that ends because Redis raises, at its first or its second request, leaves what the whole call leaves
      when Redis answers none or one. */
  lemma InterruptedSet<V>(s: State<V>, p: nat, k: string, v: V, ttl: real, c: string, delay: real)
    requires 0.0 <= delay && p < |s.layers.locals| && s.flights == [] && 0.0 < ttl
    ensures
      var w := Write(k, v, s.layers.now, ttl);
      var s1 := StartCall(s, p, Set(k, Some(v), ttl, Some(c)));
      && Apply(s1, Raise(0), delay).layers == Whole.DoSet(s.layers, p, k, Some(w), ttl, Some(c), 0).0
      && Apply(Apply(s1, Step(0), delay), Raise(0), delay).layers == Whole.DoSet(s.layers, p, k, Some(w), ttl, Some(c), 1).0
  {
    var w := Write(k, v, s.layers.now, ttl);
    var s1 := StartCall(s, p, Set(k, Some(v), ttl, Some(c)));
    assert s1.flights == [Flight(p, Setting(w, Some(c)), s.layers.now)];
    RaiseEnds(s1, s1.flights[0], delay);
    EndsAlone(s1);
    var s2 := Apply(s1, Step(0), delay);
    assert s2.flights == [Flight(p, Indexing(k, c), s.layers.now)];
    RaiseEnds(s2, s2.flights[0], delay);
  }

  /** The same for calls that remove entries, at their first request. */
  lemma InterruptedRemoval<V>(s: State<V>, p: nat, k: string, delay: real)
    requires p < |s.layers.locals| && s.flights == []
    ensures Apply(StartCall(s, p, Delete(k)), Raise(0), delay) == s.(layers := Whole.DoDelete(s.layers, p, k, 0).0)
    ensures Apply(StartCall(s, p, InvalidateAll), Raise(0), delay) == s.(layers := Whole.DoInvalidateAll(s.layers, p, 0).0)
    ensures Apply(StartCall(s, p, Invalidate(k)), Raise(0), delay) == s.(layers := Whole.DoInvalidate(s.layers, p, k, 0).0)
  {
    var now := s.layers.now;
    RaiseEnds(StartCall(s, p, Delete(k)), Flight(p, Deleting(k), now), delay);
    RaiseEnds(StartCall(s, p, InvalidateAll), Flight(p, Flushing, now), delay);
    RaiseEnds(StartCall(s, p, Invalidate(k)), Flight(p, Looking(k), now), delay);
  }
}
