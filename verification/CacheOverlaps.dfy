/** When the two-layer cache is a plain map although calls take time: in one process, with Redis answering, in
    all runs exactly if no two calls overlap. */
module CacheOverlaps {
  import opened TimedStore
  import opened CacheCalls
  import Whole = CacheLayers

  // ---------------------------------------------------------------- the plain map

  datatype Plain<V> = Plain(values: Store<string, Write<V>>, under: map<string, set<string>>)

  function Of<V>(m: Plain<V>, a: string): set<string> { if a in m.under then m.under[a] else {} }

  function PlainStep<V>(m: Plain<V>, e: Effect<V>): Plain<V> {
    match e
    case Put(w, expires) => m.(values := m.values[w.key := Entry(w, expires)])
    case Under(a, k) => m.(under := m.under[a := Of(m, a) + {k}])
    case Removed(k) => m.(values := m.values - {k})
    case Invalidated(a) => m.(values := m.values - Of(m, a), under := m.under - {a})
    case Cleared => Plain(map[], map[])
  }

  /** The last value set since the last deletion or invalidation, and the keys set under each collection. */
  function PlainRun<V>(log: seq<Effect<V>>): Plain<V> {
    if log == [] then Plain(map[], map[]) else PlainStep(PlainRun(log[..|log| - 1]), log[|log| - 1])
  }

  lemma PlainGrows<V>(log: seq<Effect<V>>, e: Effect<V>)
    ensures PlainRun(log + [e]) == PlainStep(PlainRun(log), e)
  {
    assert (log + [e])[..|log|] == log;
  }

  /** What a `get` finds if it runs now. */
  function Found<V>(s: State<V>, k: string): Option<V>
    requires |s.layers.locals| == 1
  {
    var found := Whole.DoGet(s.layers, 0, k, 1).1;
    if found.Some? then Some(found.value.value) else None
  }

  /** A `get` finds what is in the plain map until it expires, that or nothing in the next 60 seconds (and one
      delay), and then nothing. */
  predicate Agrees<V(==)>(s: State<V>, k: string, delay: real)
    requires |s.layers.locals| == 1
  {
    var m, now, found := PlainRun(s.log), s.layers.now, Found(s, k);
    if k !in m.values then found == None
    else if now < m.values[k].expires then found == Some(m.values[k].value.value)
    else if now < m.values[k].expires + 60.0 + delay then found in {None, Some(m.values[k].value.value)}
    else found == None
  }

  /** At most `c` calls of the process are in flight, and Redis answers. */
  ghost predicate Obeys<V>(c: nat, now: real, es: seq<Event<V>>, delay: real) {
    es != [] ==>
      && Obeys(c, now, es[..|es| - 1], delay)
      && !es[|es| - 1].Raise? && |Run(1, now, es, delay).flights| <= c
  }

  // ---------------------------------------------------------------- one call at a time

  ghost predicate Same<V>(s: State<V>, m: Plain<V>) {
    && |s.layers.locals| == 1 && s.layers.redis == m.values && s.layers.index == m.under
    && forall a :: a in m.under ==> m.under[a] != {}
  }

  /** A readable local entry, except for some keys, holds the plain map's value, at most 60 seconds and a delay
      beyond its time. */
  ghost predicate LocalAgrees<V>(local: Store<string, Write<V>>, m: Plain<V>, now: real, doubtful: set<string>, delay: real) {
    forall k :: k in local && k !in doubtful && now < local[k].expires ==>
      && k in m.values && local[k].value == m.values[k].value
      && local[k].expires <= m.values[k].expires + 60.0 + delay
  }

  ghost predicate FlightFits<V>(s: State<V>, m: Plain<V>, f: Flight<V>, delay: real)
    requires |s.layers.locals| == 1
  {
    var local, now := s.layers.locals[0], s.layers.now;
    && f.p == 0 && f.since <= now
    && match f.stage
       case Filling(k, w) =>
         LocalAgrees(local, m, now, {}, delay) && k in m.values && m.values[k].value == w && f.since < m.values[k].expires
       case Setting(w, _) =>
         LocalAgrees(local, m, now, {w.key}, delay) && (w.key in local ==> local[w.key] == Entry(w, f.since + w.ttl))
       case Deleting(k) => LocalAgrees(local, m, now, {}, delay) && k !in local
       case Removing(a, keys) => LocalAgrees(local, m, now, {}, delay) && keys == Of(m, a)
       case Dropping(keys, _) => LocalAgrees(local, m, now, keys, delay) && keys !! m.values.Keys
       case Flushing => local == map[]
       case _ => LocalAgrees(local, m, now, {}, delay)
  }

  ghost predicate Fits<V>(s: State<V>, m: Plain<V>, delay: real) {
    && Same(s, m)
    && if s.flights == [] then LocalAgrees(s.layers.locals[0], m, s.layers.now, {}, delay)
       else |s.flights| == 1 && FlightFits(s, m, s.flights[0], delay)
  }

  lemma SetStartFits<V>(s: State<V>, m: Plain<V>, k: string, v: V, ttl: real, c: Option<string>, delay: real)
    requires Fits(s, m, delay) && s.flights == []
    ensures Fits(StartCall(s, 0, Set(k, Some(v), ttl, c)), m, delay)
  {
    var s' := StartCall(s, 0, Set(k, Some(v), ttl, c));
    assert s'.flights == [Flight(0, Setting(Write(k, v, s.layers.now, ttl), c), s.layers.now)];
  }

  lemma RemovalStartFits<V>(s: State<V>, m: Plain<V>, k: string, delay: real)
    requires Fits(s, m, delay) && s.flights == []
    ensures Fits(StartCall(s, 0, Delete(k)), m, delay) && Fits(StartCall(s, 0, InvalidateAll), m, delay)
  {
    assert StartCall(s, 0, Delete(k)).flights == [Flight(0, Deleting(k), s.layers.now)];
    assert StartCall(s, 0, InvalidateAll).flights == [Flight(0, Flushing, s.layers.now)];
  }

  lemma ReadingStartFits<V>(s: State<V>, m: Plain<V>, k: string, delay: real)
    requires Fits(s, m, delay) && s.flights == []
    ensures Fits(StartCall(s, 0, Get(k)), m, delay) && Fits(StartCall(s, 0, Invalidate(k)), m, delay)
  {
    assert StartCall(s, 0, Invalidate(k)).flights == [Flight(0, Looking(k), s.layers.now)];
    assert s.flights + [Flight(0, Getting(k), s.layers.now)] == [Flight(0, Getting(k), s.layers.now)];
  }

  lemma StartFits<V>(s: State<V>, p: nat, r: Request<V>, delay: real)
    requires Fits(s, PlainRun(s.log), delay) && p == 0 && |StartCall(s, p, r).flights| <= 1
    ensures Fits(StartCall(s, p, r), PlainRun(s.log), delay) && StartCall(s, p, r).log == s.log
  {
    var m := PlainRun(s.log);
    if s.flights == [] {
      match r
      case Set(k, Some(v), ttl, c) => SetStartFits(s, m, k, v, ttl, c, delay);
      case Set(_, None, _, _) =>
      case Get(k) => ReadingStartFits(s, m, k, delay);
      case Invalidate(k) => ReadingStartFits(s, m, k, delay);
      case Delete(k) => RemovalStartFits(s, m, k, delay);
      case InvalidateAll => RemovalStartFits(s, m, "", delay);
    } else {
      OnlyAnswers(s, r);
    }
  }

  /** With a call in flight another one can only be one that ends at once. */
  lemma OnlyAnswers<V>(s: State<V>, r: Request<V>)
    requires |s.layers.locals| == 1 && |s.flights| == 1 && |StartCall(s, 0, r).flights| <= 1
    ensures StartCall(s, 0, r) == s.(answers := StartCall(s, 0, r).answers)
  {}

  /** What the step of the call in flight changes in Redis. */
  function Logged<V>(f: Flight<V>, now: real): Option<Effect<V>> {
    match f.stage
    case Setting(w, _) => if w.ttl <= 0.0 then None else Some(Put(w, now + w.ttl))
    case Indexing(k, a) => Some(Under(a, k))
    case Deleting(k) => Some(Removed(k))
    case Removing(a, _) => Some(Invalidated(a))
    case Flushing => Some(Cleared)
    case _ => None
  }

  lemma StepLogs<V>(s: State<V>)
    requires |s.flights| == 1 && s.flights[0].p < |s.layers.locals|
    ensures StepCall(s, 0).log == match Logged(s.flights[0], s.layers.now) case Some(e) => s.log + [e] case None => s.log
  {}

  /** The plain map after that step. */
  function After<V>(s: State<V>, m: Plain<V>): Plain<V>
    requires |s.flights| == 1
  {
    match Logged(s.flights[0], s.layers.now) case Some(e) => PlainStep(m, e) case None => m
  }

  lemma AfterIsLogged<V>(s: State<V>)
    requires |s.flights| == 1 && s.flights[0].p < |s.layers.locals|
    ensures PlainRun(StepCall(s, 0).log) == After(s, PlainRun(s.log))
  {
    StepLogs(s);
    match Logged(s.flights[0], s.layers.now)
    case Some(e) => PlainGrows(s.log, e);
    case None =>
  }

  lemma GetFits<V>(s: State<V>, m: Plain<V>, delay: real)
    requires Fits(s, m, delay) && |s.flights| == 1 && 0.0 <= delay && s.layers.now <= s.flights[0].since + delay
    requires s.flights[0].stage.Getting? || s.flights[0].stage.Filling?
    ensures Fits(StepCall(s, 0), m, delay)
  {
    EndsAlone(s);
  }

  lemma SetFits<V>(s: State<V>, m: Plain<V>, delay: real)
    requires Fits(s, m, delay) && |s.flights| == 1 && 0.0 <= delay && s.flights[0].stage.Setting?
    ensures Fits(StepCall(s, 0), After(s, m), delay)
  {
    EndsAlone(s);
  }

  lemma IndexFits<V>(s: State<V>, m: Plain<V>, delay: real)
    requires Fits(s, m, delay) && |s.flights| == 1 && 0.0 <= delay && s.flights[0].stage.Indexing?
    ensures Fits(StepCall(s, 0), After(s, m), delay)
  {
    EndsAlone(s);
    assert Whole.Members(s.layers, s.flights[0].stage.address) == Of(m, s.flights[0].stage.address);
  }

  lemma DeleteFits<V>(s: State<V>, m: Plain<V>, delay: real)
    requires Fits(s, m, delay) && |s.flights| == 1 && 0.0 <= delay
    requires s.flights[0].stage.Deleting? || s.flights[0].stage.Flushing?
    ensures Fits(StepCall(s, 0), After(s, m), delay)
  {
    EndsAlone(s);
  }

  lemma InvalidateFits<V>(s: State<V>, m: Plain<V>, delay: real)
    requires Fits(s, m, delay) && |s.flights| == 1 && 0.0 <= delay
    requires s.flights[0].stage.Looking? || s.flights[0].stage.Removing? || s.flights[0].stage.Dropping?
    ensures Fits(StepCall(s, 0), After(s, m), delay)
  {
    EndsAlone(s);
    if s.flights[0].stage.Looking? {
      assert Whole.Members(s.layers, s.flights[0].stage.address) == Of(m, s.flights[0].stage.address);
    }
  }

  lemma StepFits<V>(s: State<V>, delay: real)
    requires Fits(s, PlainRun(s.log), delay) && |s.flights| == 1 && 0.0 <= delay
    requires s.layers.now <= s.flights[0].since + delay
    ensures Fits(StepCall(s, 0), PlainRun(StepCall(s, 0).log), delay)
  {
    var m := PlainRun(s.log);
    AfterIsLogged(s);
    match s.flights[0].stage
    case Setting(_, _) => SetFits(s, m, delay);
    case Indexing(_, _) => IndexFits(s, m, delay);
    case Deleting(_) => DeleteFits(s, m, delay);
    case Flushing => DeleteFits(s, m, delay);
    case Getting(_) => GetFits(s, m, delay);
    case Filling(_, _) => GetFits(s, m, delay);
    case _ => InvalidateFits(s, m, delay);
  }

  lemma TickFits<V>(s: State<V>, m: Plain<V>, d: real, delay: real)
    requires Fits(s, m, delay) && 0.0 <= d
    ensures Fits(s.(layers := s.layers.(now := s.layers.now + d)), m, delay)
  {}

  lemma EvictFits<V>(s: State<V>, m: Plain<V>, k: string, delay: real)
    requires Fits(s, m, delay)
    ensures Fits(SetLocal(s, 0, s.layers.locals[0] - {k}), m, delay)
  {}

  lemma StepEventFits<V>(s: State<V>, i: nat, delay: real)
    requires Fits(s, PlainRun(s.log), delay) && 0.0 <= delay
    ensures Fits(Apply(s, Step(i), delay), PlainRun(Apply(s, Step(i), delay).log), delay)
  {
    if i < |s.flights| && s.layers.now <= s.flights[i].since + delay {
      StepFits(s, delay);
    }
  }

  lemma OtherEventFits<V>(s: State<V>, e: Event<V>, delay: real)
    requires Fits(s, PlainRun(s.log), delay) && (e.Tick? || e.Evict?)
    ensures Fits(Apply(s, e, delay), PlainRun(s.log), delay) && Apply(s, e, delay).log == s.log
  {
    match e
    case Tick(d) => if 0.0 <= d { TickFits(s, PlainRun(s.log), d, delay); }
    case Evict(p, k) => if p == 0 { EvictFits(s, PlainRun(s.log), k, delay); }
  }

  lemma StartEventFits<V>(s: State<V>, p: nat, r: Request<V>, delay: real)
    requires Fits(s, PlainRun(s.log), delay) && |Apply(s, Start(p, r), delay).flights| <= 1
    ensures Fits(Apply(s, Start(p, r), delay), PlainRun(s.log), delay) && Apply(s, Start(p, r), delay).log == s.log
  {
    if p == 0 {
      StartFits(s, p, r, delay);
    }
  }

  lemma ApplyFits<V>(s: State<V>, e: Event<V>, delay: real)
    requires Fits(s, PlainRun(s.log), delay) && 0.0 <= delay && !e.Raise? && |Apply(s, e, delay).flights| <= 1
    ensures Fits(Apply(s, e, delay), PlainRun(Apply(s, e, delay).log), delay)
  {
    match e
    case Start(p, r) => StartEventFits(s, p, r, delay);
    case Step(i) => StepEventFits(s, i, delay);
    case _ => OtherEventFits(s, e, delay);
  }

  lemma {:induction false} RunFits<V>(now: real, es: seq<Event<V>>, delay: real)
    requires Obeys(1, now, es, delay) && 0.0 <= delay
    ensures Fits(Run(1, now, es, delay), PlainRun(Run(1, now, es, delay).log), delay)
  {
    if es != [] {
      RunFits(now, es[..|es| - 1], delay);
      ApplyFits(Run(1, now, es[..|es| - 1], delay), es[|es| - 1], delay);
    }
  }

  /** With one call at a time, however long it takes, every key reads as in the plain map whenever no call is in
      flight. */
  lemma OneCallAgrees<V>(now: real, es: seq<Event<V>>, k: string, delay: real)
    requires Obeys(1, now, es, delay) && 0.0 <= delay && Run(1, now, es, delay).flights == []
    ensures |Run(1, now, es, delay).layers.locals| == 1 && Agrees(Run(1, now, es, delay), k, delay)
  {
    RunFits(now, es, delay);
  }

  // ---------------------------------------------------------------- two calls at a time

  lemma ProcessesKeptByStep<V>(s: State<V>, i: nat)
    requires i < |s.flights| && s.flights[i].p < |s.layers.locals|
    ensures |StepCall(s, i).layers.locals| == |s.layers.locals|
  {}

  lemma ProcessesKeptBy<V>(s: State<V>, e: Event<V>, delay: real)
    ensures |Apply(s, e, delay).layers.locals| == |s.layers.locals|
  {
    if e.Step? && e.i < |s.flights| && s.flights[e.i].p < |s.layers.locals| {
      ProcessesKeptByStep(s, e.i);
    }
  }

  lemma {:induction false} ProcessesKept<V>(now: real, es: seq<Event<V>>, delay: real)
    ensures |Run(1, now, es, delay).layers.locals| == 1
  {
    if es != [] {
      ProcessesKept(now, es[..|es| - 1], delay);
      ProcessesKeptBy(Run(1, now, es[..|es| - 1], delay), es[|es| - 1], delay);
    }
  }

  lemma {:induction false} ObeysMore<V>(c: nat, d: nat, now: real, es: seq<Event<V>>, delay: real)
    requires Obeys(c, now, es, delay) && c <= d
    ensures Obeys(d, now, es, delay)
  {
    if es != [] {
      ObeysMore(c, d, now, es[..|es| - 1], delay);
    }
  }

  lemma Extended<V>(c: nat, now: real, es: seq<Event<V>>, e: Event<V>, delay: real, s: State<V>, s': State<V>)
    returns (longer: seq<Event<V>>)
    requires Obeys(c, now, es, delay) && Run(1, now, es, delay) == s
    requires Apply(s, e, delay) == s' && !e.Raise? && |s'.flights| <= c
    ensures Obeys(c, now, longer, delay) && Run(1, now, longer, delay) == s'
  {
    longer := es + [e];
    assert longer[..|es|] == es;
  }

  /** A value in Redis only, possibly under a collection. */
  function Stored<V>(v: V, a: Option<string>, now: real): State<V> {
    var w := Write("k", v, now, 100.0);
    State(Whole.State(now, [map[]], map["k" := Entry(w, now + 100.0)], if a.Some? then map[a.value := {"k"}] else map[]),
          [], [w], [], if a.Some? then [Put(w, now + 100.0), Under(a.value, "k")] else [Put(w, now + 100.0)])
  }

  /** One call alone in flight: what its step leaves, the log aside. */
  lemma SetStep<V>(s: State<V>, w: Write<V>, c: Option<string>, delay: real)
    requires 0.0 <= delay && s.flights == [Flight(0, Setting(w, c), s.layers.now)] && |s.layers.locals| == 1 && 0.0 < w.ttl
    ensures Apply(s, Step(0), delay) == s.(
      layers := s.layers.(redis := TimedStore.Put(s.layers.redis, w.key, w, s.layers.now, w.ttl)),
      log := s.log + [Put(w, s.layers.now + w.ttl)],
      flights := if c.Some? then [Flight(0, Indexing(w.key, c.value), s.layers.now)] else [])
  {
    EndsAlone(s);
  }

  lemma IndexStep<V>(s: State<V>, k: string, a: string, delay: real)
    requires 0.0 <= delay && s.flights == [Flight(0, Indexing(k, a), s.layers.now)] && |s.layers.locals| == 1 && s.layers.index == map[]
    ensures Apply(s, Step(0), delay) ==
      s.(layers := s.layers.(index := map[a := {k}]), log := s.log + [Under(a, k)], flights := [])
  {
    EndsAlone(s);
    assert {} + {k} == {k};
  }

  lemma EvictStep<V>(s: State<V>, k: string, delay: real)
    requires |s.layers.locals| == 1 && s.layers.locals[0].Keys == {k}
    ensures Apply(s, Evict(0, k), delay) == s.(layers := s.layers.(locals := [map[]]))
  {
    assert s.layers.locals[0] - {k} == map[];
  }

  lemma StoredRun<V>(v: V, a: Option<string>, now: real, delay: real) returns (es: seq<Event<V>>)
    requires 0.0 <= delay
    ensures Obeys(2, now, es, delay) && Run(1, now, es, delay) == Stored(v, a, now)
  {
    var w := Write("k", v, now, 100.0);
    var local := map["k" := Entry(w, now + 100.0)];
    var s1 := State(Whole.State(now, [local], map[], map[]), [Flight(0, Setting(w, a), now)], [w], [], []);
    var s2 := State(Whole.State(now, [local], local, map[]), if a.Some? then [Flight(0, Indexing("k", a.value), now)] else [],
                    [w], [], [Put(w, now + 100.0)]);
    var s3 := Stored(v, a, now).(layers := Stored(v, a, now).layers.(locals := [local]));
    SetStep(s1, w, a, delay);
    EvictStep(s3, "k", delay);
    es := Extended(2, now, [], Start(0, Set("k", Some(v), 100.0, a)), delay, Initial(1, now), s1);
    es := Extended(2, now, es, Step(0), delay, s1, s2);
    if a.Some? {
      IndexStep(s2, "k", a.value, delay);
      es := Extended(2, now, es, Step(0), delay, s2, s3);
    }
    es := Extended(2, now, es, Evict(0, "k"), delay, s3, Stored(v, a, now));
  }

  /** A `get` has read that value and waits to put it into the local layer. */
  function Reading<V>(v: V, a: Option<string>, now: real): State<V> {
    Stored(v, a, now).(flights := [Flight(0, Filling("k", Write("k", v, now, 100.0)), now)])
  }

  lemma ReadingRun<V>(v: V, a: Option<string>, now: real, delay: real) returns (es: seq<Event<V>>)
    requires 0.0 <= delay
    ensures Obeys(2, now, es, delay) && Run(1, now, es, delay) == Reading(v, a, now)
  {
    var s := Stored(v, a, now);
    var s1 := s.(flights := [Flight(0, Getting("k"), now)]);
    es := StoredRun(v, a, now, delay);
    es := Extended(2, now, es, Start(0, Get("k")), delay, s, s1);
    EndsAlone(s1);
    es := Extended(2, now, es, Step(0), delay, s1, Reading(v, a, now));
  }

  /** The `get` fills the local layer with a value that Redis no longer has. */
  lemma FillsLate<V>(s: State<V>, v: V, now: real, delay: real)
    requires 0.0 <= delay && s.layers.now == now && s.layers.locals == [map[]]
    requires s.flights == [Flight(0, Filling("k", Write("k", v, now, 100.0)), now)] && "k" !in PlainRun(s.log).values
    ensures
      var s' := Apply(s, Step(0), delay);
      && s'.flights == [] && |s'.layers.locals| == 1 && s'.log == s.log
      && Found(s', "k") == Some(v) && !Agrees(s', "k", delay)
  {
    EndsAlone(s);
  }

  /** A `get` that has read a value from Redis is overtaken by a deletion: it then puts the deleted value into
      the local layer, where it is found for another 60 seconds. */
  lemma DeletionOvertakesGet<V>(v: V, now: real, delay: real) returns (es: seq<Event<V>>)
    requires 0.0 <= delay
    ensures Obeys(2, now, es, delay) && Run(1, now, es, delay).flights == [] && |Run(1, now, es, delay).layers.locals| == 1
    ensures Found(Run(1, now, es, delay), "k") == Some(v) && "k" !in PlainRun(Run(1, now, es, delay).log).values
    ensures !Agrees(Run(1, now, es, delay), "k", delay)
  {
    var s := Reading(v, None, now);
    var f, w := s.flights[0], Write("k", v, now, 100.0);
    var s1 := s.(flights := [f, Flight(0, Deleting("k"), now)]);
    var s2 := s.(layers := s.layers.(redis := map[]), log := [Put(w, now + 100.0), Removed("k")]);
    es := ReadingRun(v, None, now, delay);
    assert s.layers.locals[0] - {"k"} == map[];
    es := Extended(2, now, es, Start(0, Delete("k")), delay, s, s1);
    assert s1.flights[..1] + s1.flights[2..] == [f] && s.layers.redis - {"k"} == map[];
    assert s.log + [Removed("k")] == s2.log;
    es := Extended(2, now, es, Step(1), delay, s1, s2);
    PlainGrows([Put(w, now + 100.0)], Removed("k"));
    assert [Put(w, now + 100.0)] + [Removed("k")] == s2.log;
    FillsLate(s2, v, now, delay);
    es := Extended(2, now, es, Step(0), delay, s2, Apply(s2, Step(0), delay));
  }

  /** The `get` is still waiting, and the invalidation has seen the collection's keys. */
  function Invalidating<V>(v: V, now: real): State<V> {
    var s := Reading(v, Some("a"), now);
    s.(flights := [s.flights[0], Flight(0, Removing("a", {"k"}), now)])
  }

  lemma InvalidatingRun<V>(v: V, now: real, delay: real) returns (es: seq<Event<V>>)
    requires 0.0 <= delay
    ensures Obeys(2, now, es, delay) && Run(1, now, es, delay) == Invalidating(v, now)
  {
    var s := Reading(v, Some("a"), now);
    var s1 := s.(flights := [s.flights[0], Flight(0, Looking("a"), now)]);
    es := ReadingRun(v, Some("a"), now, delay);
    es := Extended(2, now, es, Start(0, Invalidate("a")), delay, s, s1);
    assert s1.flights[1 := Flight(0, Removing("a", {"k"}), now)] == Invalidating(v, now).flights;
    es := Extended(2, now, es, Step(1), delay, s1, Invalidating(v, now));
  }

  lemma DroppedStep<V>(s: State<V>, f: Flight<V>, count: nat, delay: real)
    requires 0.0 <= delay && s.flights == [f, Flight(0, Dropping({"k"}, count), s.layers.now)] && s.layers.locals == [map[]]
    ensures Apply(s, Step(1), delay) == s.(flights := [f])
  {
    assert s.flights[..1] + s.flights[2..] == [f] && s.layers.locals[0] - {"k"} == map[];
  }

  /** An invalidation of the key's collection overtakes it in the same way. */
  lemma InvalidationOvertakesGet<V>(v: V, now: real, delay: real) returns (es: seq<Event<V>>)
    requires 0.0 <= delay
    ensures Obeys(2, now, es, delay) && Run(1, now, es, delay).flights == [] && |Run(1, now, es, delay).layers.locals| == 1
    ensures Found(Run(1, now, es, delay), "k") == Some(v) && !Agrees(Run(1, now, es, delay), "k", delay)
  {
    var s2 := Invalidating(v, now);
    var f, w := s2.flights[0], Write("k", v, now, 100.0);
    var count := |Whole.LiveIn(s2.layers.redis, {"k"}, now)|;
    var log := [Put(w, now + 100.0), Under("a", "k"), Invalidated("a")];
    var s3 := s2.(layers := s2.layers.(redis := map[], index := map[]), log := log, flights := [f, Flight(0, Dropping({"k"}, count), now)]);
    var s4 := s3.(flights := [f]);
    InvalidatedStep(s2, f, count, log, now);
    DroppedStep(s3, f, count, delay);
    PlainInvalidated(w, "a", now + 100.0);
    FillsLate(s4, v, now, delay);
    es := InvalidatingRun(v, now, delay);
    es := Extended(2, now, es, Step(1), delay, s2, s3);
    es := Extended(2, now, es, Step(1), delay, s3, s4);
    es := Extended(2, now, es, Step(0), delay, s4, Apply(s4, Step(0), delay));
  }

  lemma InvalidatedStep<V>(s: State<V>, f: Flight<V>, count: nat, log: seq<Effect<V>>, now: real)
    requires s.flights == [f, Flight(0, Removing("a", {"k"}), now)] && s.layers.now == now && |s.layers.locals| == 1
    requires s.layers.redis.Keys == {"k"} && s.layers.index == map["a" := {"k"}] && s.log + [Invalidated("a")] == log
    requires count == |Whole.LiveIn(s.layers.redis, {"k"}, now)|
    ensures StepCall(s, 1) ==
      s.(layers := s.layers.(redis := map[], index := map[]), log := log, flights := [f, Flight(0, Dropping({"k"}, count), now)])
  {
    assert s.layers.redis - {"k"} == map[] && s.layers.index - {"a"} == map[];
    assert s.flights[1 := Flight(0, Dropping({"k"}, count), now)] == [f, Flight(0, Dropping({"k"}, count), now)];
  }

  lemma PlainInvalidated<V>(w: Write<V>, a: string, expires: real)
    requires w.key == "k"
    ensures "k" !in PlainRun([Put(w, expires), Under(a, "k"), Invalidated(a)]).values
  {
    var log0 := [Put(w, expires)];
    var log1 := log0 + [Under(a, "k")];
    PlainGrows([], Put(w, expires));
    PlainGrows(log0, Under(a, "k"));
    PlainGrows(log1, Invalidated(a));
    assert [] + [Put(w, expires)] == log0;
    assert log1 + [Invalidated(a)] == [Put(w, expires), Under(a, "k"), Invalidated(a)];
  }

  /** Two `set` calls in flight, of which the later one reaches Redis first. */
  lemma SecondSetFirst<V>(s: State<V>, f: Flight<V>, x: Write<V>, delay: real)
    requires 0.0 <= delay && s.flights == [f, Flight(0, Setting(x, None), s.layers.now)] && |s.layers.locals| == 1 && 0.0 < x.ttl
    ensures Apply(s, Step(1), delay) == s.(
      layers := s.layers.(redis := TimedStore.Put(s.layers.redis, x.key, x, s.layers.now, x.ttl)),
      log := s.log + [Put(x, s.layers.now + x.ttl)], flights := [f])
  {
    assert s.flights[..1] + s.flights[2..] == [f];
  }

  lemma Disagreeing<V>(s: State<V>, w: Write<V>, x: Write<V>, delay: real)
    requires |s.layers.locals| == 1 && w.key == x.key == "k" && w.value != x.value
    requires s.layers.locals[0] == map["k" := Entry(x, s.layers.now + 100.0)]
    requires s.log == [Put(x, s.layers.now + 100.0), Put(w, s.layers.now + 100.0)]
    ensures Found(s, "k") == Some(x.value) && !Agrees(s, "k", delay)
  {
    var px, pw := Put(x, s.layers.now + 100.0), Put(w, s.layers.now + 100.0);
    assert [px] + [pw] == s.log;
    PlainGrows([px], pw);
  }

  /** Two `set` calls that have written the local layer, one after the other. */
  function BothLocal<V>(w: Write<V>, x: Write<V>, now: real): State<V> {
    State(Whole.State(now, [map["k" := Entry(x, now + 100.0)]], map[], map[]),
          [Flight(0, Setting(w, None), now), Flight(0, Setting(x, None), now)], [w, x], [], [])
  }

  lemma BothLocalRun<V>(u: V, v: V, now: real, delay: real) returns (es: seq<Event<V>>)
    ensures Obeys(2, now, es, delay)
    ensures Run(1, now, es, delay) == BothLocal(Write("k", u, now, 100.0), Write("k", v, now, 100.0), now)
  {
    var w, x := Write("k", u, now, 100.0), Write("k", v, now, 100.0);
    var mw, mx := map["k" := Entry(w, now + 100.0)], map["k" := Entry(x, now + 100.0)];
    var s1 := State(Whole.State(now, [mw], map[], map[]), [Flight(0, Setting(w, None), now)], [w], [], []);
    assert mw["k" := Entry(x, now + 100.0)] == mx;
    es := Extended(2, now, [], Start(0, Set("k", Some(u), 100.0, None)), delay, Initial(1, now), s1);
    es := Extended(2, now, es, Start(0, Set("k", Some(v), 100.0, None)), delay, s1, BothLocal(w, x, now));
  }

  /** Two `set` calls that overlap can leave the one's value in the local layer and the other's in Redis. */
  lemma SetsDisagree<V>(u: V, v: V, now: real, delay: real) returns (es: seq<Event<V>>)
    requires 0.0 <= delay && u != v
    ensures Obeys(2, now, es, delay) && Run(1, now, es, delay).flights == [] && |Run(1, now, es, delay).layers.locals| == 1
    ensures Found(Run(1, now, es, delay), "k") == Some(v) && !Agrees(Run(1, now, es, delay), "k", delay)
  {
    var w, x := Write("k", u, now, 100.0), Write("k", v, now, 100.0);
    var mw, mx := map["k" := Entry(w, now + 100.0)], map["k" := Entry(x, now + 100.0)];
    var s2 := BothLocal(w, x, now);
    var s3 := s2.(layers := s2.layers.(redis := mx), flights := [s2.flights[0]], log := [Put(x, now + 100.0)]);
    var s4 := s3.(layers := s3.layers.(redis := mw), flights := [], log := [Put(x, now + 100.0), Put(w, now + 100.0)]);
    assert mx["k" := Entry(w, now + 100.0)] == mw;
    SecondSetFirst(s2, s2.flights[0], x, delay);
    SetStep(s3, w, None, delay);
    Disagreeing(s4, w, x, delay);
    es := BothLocalRun(u, v, now, delay);
    es := Extended(2, now, es, Step(1), delay, s2, s3);
    es := Extended(2, now, es, Step(0), delay, s3, s4);
  }

  ghost predicate AllAgree<V(!new)>(s: State<V>, delay: real) {
    |s.layers.locals| == 1 && forall k :: Agrees(s, k, delay)
  }

  /** In one process and with Redis answering, every key reads as in the plain map in all runs, whenever no call
      is in flight, exactly when at most one call is in flight at a time. */
  lemma AgreesIffAlone<V(!new)>(c: nat, v: V, now: real, delay: real)
    requires 0.0 <= delay
    ensures c <= 1 <==>
      forall es: seq<Event<V>> :: Obeys(c, now, es, delay) && Run(1, now, es, delay).flights == [] ==>
        AllAgree(Run(1, now, es, delay), delay)
  {
    if c <= 1 {
      forall es: seq<Event<V>> | Obeys(c, now, es, delay) && Run(1, now, es, delay).flights == []
        ensures AllAgree(Run(1, now, es, delay), delay)
      {
        ObeysMore(c, 1, now, es, delay);
        ProcessesKept(now, es, delay);
        forall k ensures Agrees(Run(1, now, es, delay), k, delay) {
          OneCallAgrees(now, es, k, delay);
        }
      }
    } else {
      var es := DeletionOvertakesGet(v, now, delay);
      ObeysMore(2, c, now, es, delay);
    }
  }

  // ---------------------------------------------------------------- how old an answer can be

  function Alone<V>(now: real, local: Store<string, Write<V>>, redis: Store<string, Write<V>>, stage: Option<Stage<V>>, since: real,
                    w: Write<V>, answers: seq<Answer<V>>, log: seq<Effect<V>>): State<V> {
    State(Whole.State(now, [local], redis, map[]), if stage.Some? then [Flight(0, stage.value, since)] else [], [w], answers, log)
  }

  lemma Waits<V>(now: real, d: real, local: Store<string, Write<V>>, redis: Store<string, Write<V>>, stage: Option<Stage<V>>, since: real,
                 w: Write<V>, answers: seq<Answer<V>>, log: seq<Effect<V>>, delay: real)
    requires 0.0 <= d
    ensures Apply(Alone(now, local, redis, stage, since, w, answers, log), Tick(d), delay)
         == Alone(now + d, local, redis, stage, since, w, answers, log)
  {}

  lemma SetBegins<V>(v: V, ttl: real, now: real, delay: real)
    ensures
      var w := Write("k", v, now, ttl);
      Apply(Initial(1, now), Start(0, Set("k", Some(v), ttl, None)), delay)
        == Alone(now, map["k" := Entry(w, now + ttl)], map[], Some(Setting(w, None)), now, w, [], [])
  {}

  lemma SetLands<V>(now: real, since: real, local: Store<string, Write<V>>, w: Write<V>, delay: real)
    requires now <= since + delay && 0.0 < w.ttl && w.key == "k"
    ensures Apply(Alone(now, local, map[], Some(Setting(w, None)), since, w, [], []), Step(0), delay)
         == Alone(now, local, map["k" := Entry(w, now + w.ttl)], None, since, w, [], [Put(w, now + w.ttl)])
  {
    EndsAlone(Alone(now, local, map[], Some(Setting(w, None)), since, w, [], []));
  }

  lemma Forgets<V>(now: real, local: Store<string, Write<V>>, redis: Store<string, Write<V>>, since: real, w: Write<V>, log: seq<Effect<V>>, delay: real)
    requires local.Keys == {"k"}
    ensures Apply(Alone(now, local, redis, None, since, w, [], log), Evict(0, "k"), delay) == Alone(now, map[], redis, None, since, w, [], log)
  {
    EvictStep(Alone(now, local, redis, None, since, w, [], log), "k", delay);
  }

  lemma GetBegins<V>(now: real, redis: Store<string, Write<V>>, since: real, w: Write<V>, log: seq<Effect<V>>, delay: real)
    ensures Apply(Alone(now, map[], redis, None, since, w, [], log), Start(0, Get("k")), delay)
         == Alone(now, map[], redis, Some(Getting("k")), now, w, [], log)
  {}

  lemma GetReads<V>(now: real, until: real, w: Write<V>, log: seq<Effect<V>>, delay: real)
    requires 0.0 <= delay && now < until
    ensures
      var redis := map["k" := Entry(w, until)];
      Apply(Alone(now, map[], redis, Some(Getting("k")), now, w, [], log), Step(0), delay)
        == Alone(now, map[], redis, Some(Filling("k", w)), now, w, [], log)
  {
    EndsAlone(Alone(now, map[], map["k" := Entry(w, until)], Some(Getting("k")), now, w, [], log));
  }

  lemma GetFills<V>(now: real, since: real, redis: Store<string, Write<V>>, w: Write<V>, log: seq<Effect<V>>, delay: real)
    requires now <= since + delay
    ensures Apply(Alone(now, map[], redis, Some(Filling("k", w)), since, w, [], log), Step(0), delay)
         == Alone(now, map["k" := Entry(w, now + 60.0)], redis, None, since, w, [Answer("k", w, now)], log)
  {
    EndsAlone(Alone(now, map[], redis, Some(Filling("k", w)), since, w, [], log));
    assert [] + [Answer("k", w, now)] == [Answer("k", w, now)];
  }

  lemma GetHits<V>(now: real, until: real, redis: Store<string, Write<V>>, since: real, w: Write<V>, a: Answer<V>, log: seq<Effect<V>>, delay: real)
    requires now < until
    ensures
      var local := map["k" := Entry(w, until)];
      Apply(Alone(now, local, redis, None, since, w, [a], log), Start(0, Get("k")), delay)
        == Alone(now, local, redis, None, since, w, [a, Answer("k", w, now)], log)
  {
    assert [a] + [Answer("k", w, now)] == [a, Answer("k", w, now)];
  }

  ghost function Reachable<V(!new)>(now: real, delay: real): iset<State<V>> {
    iset es: seq<Event<V>> | Obeys(1, now, es, delay) :: Run(1, now, es, delay)
  }

  ghost predicate Closed<V(!new)>(reach: iset<State<V>>, delay: real) {
    forall s: State<V>, e: Event<V> :: s in reach && !e.Raise? && |Apply(s, e, delay).flights| <= 1 ==> Apply(s, e, delay) in reach
  }

  lemma ReachableClosed<V(!new)>(now: real, delay: real)
    ensures Closed(Reachable<V>(now, delay), delay) && Initial<V>(1, now) in Reachable<V>(now, delay)
  {
    var reach := Reachable<V>(now, delay);
    forall s: State<V>, e: Event<V> | s in reach && !e.Raise? && |Apply(s, e, delay).flights| <= 1 ensures Apply(s, e, delay) in reach {
      var es :| Obeys(1, now, es, delay) && Run(1, now, es, delay) == s;
      var longer := Extended(1, now, es, e, delay, s, Apply(s, e, delay));
    }
    var none: seq<Event<V>> := [];
    assert Obeys(1, now, none, delay) && Run(1, now, none, delay) == Initial<V>(1, now);
  }

  lemma Move<V(!new)>(reach: iset<State<V>>, s: State<V>, e: Event<V>, s': State<V>, delay: real)
    requires Closed(reach, delay) && s in reach && Apply(s, e, delay) == s' && !e.Raise? && |s'.flights| <= 1
    ensures s' in reach
  {}

  /** A value is set and reaches Redis a delay later. */
  lemma SetLate<V(!new)>(reach: iset<State<V>>, w: Write<V>, now: real, t: real, delay: real)
    requires Closed(reach, delay) && Initial(1, now) in reach
    requires now <= t == now + delay && 0.0 < w.ttl && w.key == "k" && w.at == now
    ensures Alone(t, map["k" := Entry(w, now + w.ttl)], map["k" := Entry(w, t + w.ttl)], None, now, w, [], [Put(w, t + w.ttl)]) in reach
  {
    var local, redis, log := map["k" := Entry(w, now + w.ttl)], map["k" := Entry(w, t + w.ttl)], [Put(w, t + w.ttl)];
    var s1, s2 := Alone(now, local, map[], Some(Setting(w, None)), now, w, [], []), Alone(t, local, map[], Some(Setting(w, None)), now, w, [], []);
    SetBegins(w.value, w.ttl, now, delay);
    Waits(now, delay, local, map[], Some(Setting(w, None)), now, w, [], [], delay);
    SetLands(t, now, local, w, delay);
    Move(reach, Initial(1, now), Start(0, Set("k", Some(w.value), w.ttl, None)), s1, delay);
    Move(reach, s1, Tick(delay), s2, delay);
    Move(reach, s2, Step(0), Alone(t, local, redis, None, now, w, [], log), delay);
  }

  /** It is evicted from the local layer, and time passes. */
  lemma EvictedLater<V(!new)>(reach: iset<State<V>>, w: Write<V>, local: Store<string, Write<V>>, redis: Store<string, Write<V>>, since: real,
                              from: real, at: real, delay: real, log: seq<Effect<V>>)
    requires Closed(reach, delay) && from <= at && local.Keys == {"k"}
    requires Alone(from, local, redis, None, since, w, [], log) in reach
    ensures Alone(at, map[], redis, None, since, w, [], log) in reach
  {
    var s0, s1 := Alone(from, local, redis, None, since, w, [], log), Alone(from, map[], redis, None, since, w, [], log);
    Forgets(from, local, redis, since, w, log, delay);
    Waits(from, at - from, map[], redis, None, since, w, [], log, delay);
    Move(reach, s0, Evict(0, "k"), s1, delay);
    Move(reach, s1, Tick(at - from), Alone(at, map[], redis, None, since, w, [], log), delay);
  }

  /** A `get` reads the value from Redis. */
  lemma ReadFromRedis<V(!new)>(reach: iset<State<V>>, w: Write<V>, until: real, since: real, at: real, delay: real, log: seq<Effect<V>>)
    requires Closed(reach, delay) && 0.0 <= delay && at < until
    requires Alone(at, map[], map["k" := Entry(w, until)], None, since, w, [], log) in reach
    ensures Alone(at, map[], map["k" := Entry(w, until)], Some(Filling("k", w)), at, w, [], log) in reach
  {
    var redis := map["k" := Entry(w, until)];
    var s1 := Alone(at, map[], redis, Some(Getting("k")), at, w, [], log);
    GetBegins(at, redis, since, w, log, delay);
    GetReads(at, until, w, log, delay);
    Move(reach, Alone(at, map[], redis, None, since, w, [], log), Start(0, Get("k")), s1, delay);
    Move(reach, s1, Step(0), Alone(at, map[], redis, Some(Filling("k", w)), at, w, [], log), delay);
  }

  /** It answers it and fills the local layer with it a delay later. */
  lemma FilledLate<V(!new)>(reach: iset<State<V>>, w: Write<V>, redis: Store<string, Write<V>>, at: real, t: real, delay: real, log: seq<Effect<V>>)
    requires Closed(reach, delay) && at <= t == at + delay
    requires Alone(at, map[], redis, Some(Filling("k", w)), at, w, [], log) in reach
    ensures Alone(t, map["k" := Entry(w, t + 60.0)], redis, None, at, w, [Answer("k", w, t)], log) in reach
  {
    var s0, s1 := Alone(at, map[], redis, Some(Filling("k", w)), at, w, [], log), Alone(t, map[], redis, Some(Filling("k", w)), at, w, [], log);
    Waits(at, delay, map[], redis, Some(Filling("k", w)), at, w, [], log, delay);
    GetFills(t, at, redis, w, log, delay);
    Move(reach, s0, Tick(delay), s1, delay);
    Move(reach, s1, Step(0), Alone(t, map["k" := Entry(w, t + 60.0)], redis, None, at, w, [Answer("k", w, t)], log), delay);
  }

  /** And a later `get` finds it there. */
  lemma AnsweredAgain<V(!new)>(reach: iset<State<V>>, w: Write<V>, redis: Store<string, Write<V>>, since: real, from: real, at: real, delay: real,
                               a: Answer<V>, log: seq<Effect<V>>)
    requires Closed(reach, delay) && from <= at < from + 60.0
    requires Alone(from, map["k" := Entry(w, from + 60.0)], redis, None, since, w, [a], log) in reach
    ensures Alone(at, map["k" := Entry(w, from + 60.0)], redis, None, since, w, [a, Answer("k", w, at)], log) in reach
  {
    var local := map["k" := Entry(w, from + 60.0)];
    var s0, s1 := Alone(from, local, redis, None, since, w, [a], log), Alone(at, local, redis, None, since, w, [a], log);
    Waits(from, at - from, local, redis, None, since, w, [a], log, delay);
    GetHits(at, from + 60.0, redis, since, w, a, log, delay);
    Move(reach, s0, Tick(at - from), s1, delay);
    Move(reach, s1, Start(0, Get("k")), Alone(at, local, redis, None, since, w, [a, Answer("k", w, at)], log), delay);
  }

  lemma OldAnswer<V(!new)>(reach: iset<State<V>>, w: Write<V>, now: real, t1: real, t2: real, t3: real, t4: real, delay: real) returns (s: State<V>)
    requires Closed(reach, delay) && Initial(1, now) in reach && 0.0 < w.ttl && w.key == "k" && w.at == now
    requires now <= t1 == now + delay && t1 <= t2 < t1 + w.ttl && t2 <= t3 == t2 + delay && t3 <= t4 < t3 + 60.0
    ensures s in reach && Answer("k", w, t4) in s.answers
  {
    var redis, log := map["k" := Entry(w, t1 + w.ttl)], [Put(w, t1 + w.ttl)];
    var a, b := Answer("k", w, t3), Answer("k", w, t4);
    SetLate(reach, w, now, t1, delay);
    EvictedLater(reach, w, map["k" := Entry(w, now + w.ttl)], redis, now, t1, t2, delay, log);
    ReadFromRedis(reach, w, t1 + w.ttl, now, t2, delay, log);
    FilledLate(reach, w, redis, t2, t3, delay, log);
    AnsweredAgain(reach, w, redis, t2, t3, t4, delay, a, log);
    s := Alone(t4, map["k" := Entry(w, t3 + 60.0)], redis, None, t2, w, [a, b], log);
    assert b in [a, b];
  }

  /** The bound of `GetIsRecent` is sharp, with one process, no failure and one call at a time: a value can be
      answered at any age less than its time to live, 60 seconds and two delays. */
  lemma AnswerCanBeThatOld<V(!new)>(v: V, ttl: real, gap: real, now: real, delay: real) returns (es: seq<Event<V>>)
    requires 0.0 <= delay && 0.0 < gap && gap <= ttl && gap <= 60.0
    ensures Obeys(1, now, es, delay)
    ensures Answer("k", Write("k", v, now, ttl), now + ttl + 60.0 + 2.0 * delay - gap) in Run(1, now, es, delay).answers
  {
    var reach := Reachable<V>(now, delay);
    ReachableClosed<V>(now, delay);
    var t1 := now + delay;
    var t2 := t1 + ttl - gap / 2.0;
    var t3 := t2 + delay;
    var s := OldAnswer(reach, Write("k", v, now, ttl), now, t1, t2, t3, t3 + 60.0 - gap / 2.0, delay);
    es :| Obeys(1, now, es, delay) && Run(1, now, es, delay) == s;
  }
}
