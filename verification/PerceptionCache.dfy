/** The read-through cache of perception indices while webhooks arrive.  A webhook first stores its
    snapshot and only later, if its graph loads, invalidates the cache; a reader first reads the
    snapshots and later fills the cache.  All of these interleave. */
module PerceptionCache {
  import opened TimedStore
  import opened PerceptionIndex

  const CACHE_TTL := 300.0

  /** A value read when the log had `seen` entries, at `readAt`.  `missed` are the webhooks for the same
      entity that invalidated the cache between that reading and the filling of the cache. */
  datatype Reading = Reading(entity: Entity, value: real, seen: nat, readAt: real, missed: set<nat>)

  datatype Cached = Cached(reading: Reading, expires: real)

  /** `arrived` gives each snapshot's time of arrival; the webhooks in `open` are still being processed
      and those in `failed` ended with an error after storing their snapshot. */
  datatype State = State(
    now: real,
    log: seq<Snapshot>, arrived: seq<real>, open: set<nat>, failed: set<nat>,
    cache: map<Entity, Cached>,
    readers: seq<Reading>)

  datatype Event =
    | Tick(elapsed: real)
    | Store(snapshot: Snapshot)
    | Fail(webhook: nat)
    | Invalidate(webhook: nat)
    | Read(entity: Entity)
    | Fill(reader: nat)
    | Evict(entity: Entity)

  predicate CacheHit(s: State, e: Entity) { e in s.cache && s.now < s.cache[e].expires }

  /** What `get_perception_index` answers if it is called now. */
  function Get(s: State, e: Entity): real { if CacheHit(s, e) then s.cache[e].reading.value else Index(s.log, e) }

  function Note(rs: seq<Reading>, e: Entity, i: nat): (rs': seq<Reading>)
    ensures |rs'| == |rs|
    ensures forall j: nat :: j < |rs| ==>
      rs'[j] == if rs[j].entity == e then rs[j].(missed := rs[j].missed + {i}) else rs[j]
  {
    if rs == [] then []
    else [if rs[0].entity == e then rs[0].(missed := rs[0].missed + {i}) else rs[0]] + Note(rs[1..], e, i)
  }

  /** A reader fills the cache no more than `delay` after its reading. */
  function Apply(s: State, ev: Event, delay: real): State {
    match ev
    case Tick(d) => if d < 0.0 then s else s.(now := s.now + d)
    case Store(x) => s.(log := s.log + [x], arrived := s.arrived + [s.now], open := s.open + {|s.log|})
    case Fail(i) => if i in s.open then s.(open := s.open - {i}, failed := s.failed + {i}) else s
    case Invalidate(i) =>
      if i in s.open && i < |s.log| then
        var e := s.log[i].entity;
        s.(open := s.open - {i}, cache := s.cache - {e}, readers := Note(s.readers, e, i))
      else s
    case Read(e) =>
      if CacheHit(s, e) || Latest(s.log, e) == None then s
      else s.(readers := s.readers + [Reading(e, Index(s.log, e), |s.log|, s.now, {})])
    case Fill(j) =>
      if j < |s.readers| && s.now <= s.readers[j].readAt + delay then
        var r := s.readers[j];
        s.(cache := s.cache[r.entity := Cached(r, s.now + CACHE_TTL)], readers := s.readers[..j] + s.readers[j + 1..])
      else s
    case Evict(e) => s.(cache := s.cache - {e})
  }

  function Run(now: real, es: seq<Event>, delay: real): State {
    if es == [] then State(now, [], [], {}, {}, map[], [])
    else Apply(Run(now, es[..|es| - 1], delay), es[|es| - 1], delay)
  }

  // ---------------------------------------------------------------- the invariant

  /** At instant `at` the log consisted of its first `n` snapshots. */
  ghost predicate StoodAt(s: State, n: nat, at: real)
    requires |s.arrived| == |s.log|
  {
    && n <= |s.log|
    && (forall i: nat :: i < n ==> s.arrived[i] <= at)
    && (forall i: nat :: n <= i < |s.log| ==> at <= s.arrived[i])
  }

  ghost predicate ReadingOk(s: State, r: Reading)
    requires |s.arrived| == |s.log|
  {
    && r.readAt <= s.now && StoodAt(s, r.seen, r.readAt)
    && Latest(s.log[..r.seen], r.entity).Some? && r.value == Index(s.log[..r.seen], r.entity)
    && forall i: nat :: r.seen <= i < |s.log| && s.log[i].entity == r.entity ==> i in s.open || i in s.failed || i in r.missed
  }

  ghost predicate Inv(s: State, delay: real) {
    && |s.arrived| == |s.log|
    && (forall i: nat :: i < |s.log| ==> s.arrived[i] <= s.now)
    && (forall i :: i in s.open ==> i < |s.log|)
    && (forall j: nat :: j < |s.readers| ==> ReadingOk(s, s.readers[j]))
    && (forall e :: e in s.cache ==>
          && ReadingOk(s, s.cache[e].reading) && s.cache[e].reading.entity == e
          && s.cache[e].expires <= s.cache[e].reading.readAt + delay + CACHE_TTL)
  }

  /** Time passes, snapshots are added, webhooks change their state: a reading stays what it was. */
  lemma ReadingKept(s: State, s': State, r: Reading, r': Reading)
    requires |s.arrived| == |s.log| && |s'.arrived| == |s'.log| && ReadingOk(s, r)
    requires s.now <= s'.now && s.log <= s'.log && s.arrived <= s'.arrived
    requires forall i: nat :: |s.log| <= i < |s'.log| ==> s.now <= s'.arrived[i] && i in s'.open
    requires r' == r.(missed := r'.missed)
    requires forall i: nat :: i < |s.log| && s.log[i].entity == r.entity && (i in s.open || i in s.failed || i in r.missed) ==>
               i in s'.open || i in s'.failed || i in r'.missed
    ensures ReadingOk(s', r')
  {
    assert s'.log[..r.seen] == s.log[..r.seen];
    assert forall i: nat :: i < |s.log| ==> s'.log[i] == s.log[i] && s'.arrived[i] == s.arrived[i];
  }

  lemma StoreInv(s: State, x: Snapshot, delay: real)
    requires Inv(s, delay)
    ensures Inv(Apply(s, Store(x), delay), delay)
  {
    var s' := Apply(s, Store(x), delay);
    forall j: nat | j < |s'.readers| ensures ReadingOk(s', s'.readers[j]) {
      ReadingKept(s, s', s.readers[j], s.readers[j]);
    }
    forall e | e in s'.cache ensures ReadingOk(s', s'.cache[e].reading) {
      ReadingKept(s, s', s.cache[e].reading, s.cache[e].reading);
    }
  }

  lemma InvalidateInv(s: State, i: nat, delay: real)
    requires Inv(s, delay) && i in s.open
    ensures Inv(Apply(s, Invalidate(i), delay), delay)
  {
    var s' := Apply(s, Invalidate(i), delay);
    forall j: nat | j < |s'.readers| ensures ReadingOk(s', s'.readers[j]) {
      ReadingKept(s, s', s.readers[j], s'.readers[j]);
    }
    forall e | e in s'.cache ensures ReadingOk(s', s'.cache[e].reading) {
      ReadingKept(s, s', s.cache[e].reading, s.cache[e].reading);
    }
  }

  lemma ReadInv(s: State, e: Entity, delay: real)
    requires Inv(s, delay)
    ensures Inv(Apply(s, Read(e), delay), delay)
  {
    var s' := Apply(s, Read(e), delay);
    assert s.log[..|s.log|] == s.log;
    forall j: nat | j < |s'.readers| ensures ReadingOk(s', s'.readers[j]) {
      if j < |s.readers| {
        ReadingKept(s, s', s.readers[j], s.readers[j]);
      }
    }
    forall e | e in s'.cache ensures ReadingOk(s', s'.cache[e].reading) {
      ReadingKept(s, s', s.cache[e].reading, s.cache[e].reading);
    }
  }

  lemma OtherInv(s: State, ev: Event, delay: real)
    requires Inv(s, delay) && (ev.Tick? || ev.Fail? || ev.Fill? || ev.Evict?)
    ensures Inv(Apply(s, ev, delay), delay)
  {
    var s' := Apply(s, ev, delay);
    forall r | ReadingOk(s, r) ensures ReadingOk(s', r) {
      ReadingKept(s, s', r, r);
    }
  }

  lemma {:induction false} RunInv(now: real, es: seq<Event>, delay: real)
    ensures Inv(Run(now, es, delay), delay)
  {
    if es != [] {
      RunInv(now, es[..|es| - 1], delay);
      var s := Run(now, es[..|es| - 1], delay);
      match es[|es| - 1]
      case Store(x) => StoreInv(s, x, delay);
      case Invalidate(i) => if i in s.open { InvalidateInv(s, i, delay); }
      case Read(e) => ReadInv(s, e, delay);
      case _ => OtherInv(s, es[|es| - 1], delay);
    }
  }

  // ---------------------------------------------------------------- freshness

  /** What `get_perception_index` answers is the index of the log as it stood at some instant less than
      300 seconds, and the time a reader takes to fill the cache, ago. */
  lemma GetIsRecent(now: real, es: seq<Event>, delay: real, e: Entity) returns (n: nat, at: real)
    requires 0.0 <= delay
    ensures
      var s := Run(now, es, delay);
      && |s.arrived| == |s.log| && StoodAt(s, n, at) && s.now - 300.0 - delay < at <= s.now
      && Get(s, e) == Index(s.log[..n], e)
  {
    var s := Run(now, es, delay);
    RunInv(now, es, delay);
    if CacheHit(s, e) {
      n, at := s.cache[e].reading.seen, s.cache[e].reading.readAt;
    } else {
      n, at := |s.log|, s.now;
      assert s.log[..n] == s.log;
    }
  }

  /** A webhook that stored a snapshot of the cached entity after the cached reading, measured later than
      everything read, and that did not invalidate the cache since it was filled. */
  ghost predicate Overlooked(s: State, e: Entity, i: nat)
    requires e in s.cache
  {
    var r := s.cache[e].reading;
    && r.seen <= i < |s.log| && s.log[i].entity == e
    && (i in s.open || i in s.failed || i in r.missed)
    && (Latest(s.log[..r.seen], e).Some? ==> Latest(s.log[..r.seen], e).value.timestamp <= s.log[i].timestamp)
  }

  /** The answer is the current index unless some webhook of the last 300 seconds was overlooked: one
      that failed after storing its snapshot, is still being processed, or finished while the reader
      was about to fill the cache.  Late arrivals with an older measurement never matter. */
  lemma GetIsCurrent(now: real, es: seq<Event>, delay: real, e: Entity)
    requires CacheHit(Run(now, es, delay), e) ==> forall i: nat :: !Overlooked(Run(now, es, delay), e, i)
    ensures Get(Run(now, es, delay), e) == Index(Run(now, es, delay).log, e)
  {
    var s := Run(now, es, delay);
    RunInv(now, es, delay);
    if CacheHit(s, e) {
      var r := s.cache[e].reading;
      forall i: nat | r.seen <= i < |s.log| && s.log[i].entity == e
        ensures s.log[i].timestamp < Latest(s.log[..r.seen], e).value.timestamp
      {
        assert !Overlooked(s, e, i);
      }
      LateArrivals(s.log, r.seen, e);
    }
  }

  /** A webhook whose graph fails leaves the old index in the cache until it expires, although its own
      measurement, if it is the latest, is the current one. */
  lemma FailedWebhookIsOverlooked(s: State, x: Snapshot, d: real, delay: real)
    requires CacheHit(s, x.entity) && 0.0 <= d && s.now + d < s.cache[x.entity].expires
    requires Latest(s.log, x.entity).Some? ==> Latest(s.log, x.entity).value.timestamp < x.timestamp
    ensures
      var s' := Apply(Apply(Apply(s, Store(x), delay), Fail(|s.log|), delay), Tick(d), delay);
      Get(s', x.entity) == s.cache[x.entity].reading.value && Index(s'.log, x.entity) == Dampened(x)
  {
    assert (s.log + [x])[..|s.log|] == s.log;
  }

  // ---------------------------------------------------------------- the three ways to overlook a webhook

  lemma Extended(now: real, es: seq<Event>, e: Event, delay: real, s: State, s': State) returns (longer: seq<Event>)
    requires Run(now, es, delay) == s && Apply(s, e, delay) == s'
    ensures Run(now, longer, delay) == s'
  {
    longer := es + [e];
    assert longer[..|es|] == es;
  }

  /** The first measurement of an entity was stored and invalidated, and a reader has read it. */
  function ReadOnce(now: real, x: Snapshot): State {
    State(now, [x], [now], {}, {}, map[], [Reading(x.entity, Dampened(x), 1, now, {})])
  }

  lemma FirstStored(s: State, x: Snapshot, delay: real)
    requires s.log == [] && s.arrived == [] && s.open == {}
    ensures Apply(s, Store(x), delay) == s.(log := [x], arrived := [s.now], open := {0})
  {
    assert s.log + [x] == [x] && s.arrived + [s.now] == [s.now] && s.open + {0} == {0};
  }

  lemma FirstInvalidated(s: State, x: Snapshot, delay: real)
    requires s.log == [x] && s.open == {0} && s.cache == map[] && s.readers == []
    ensures Apply(s, Invalidate(0), delay) == s.(open := {})
  {
    assert s.open - {0} == {} && s.cache - {x.entity} == map[];
  }

  lemma FirstRead(s: State, x: Snapshot, delay: real)
    requires s.log == [x] && s.cache == map[] && s.readers == []
    ensures Apply(s, Read(x.entity), delay) == s.(readers := [Reading(x.entity, Dampened(x), 1, s.now, {})])
  {
    assert [x][..0] == [] && Latest([x], x.entity) == Some(x);
  }

  lemma ReadOnceRun(now: real, x: Snapshot, delay: real) returns (es: seq<Event>)
    ensures Run(now, es, delay) == ReadOnce(now, x)
  {
    var s0 := State(now, [], [], {}, {}, map[], []);
    var s1 := s0.(log := [x], arrived := [now], open := {0});
    var s2 := s1.(open := {});
    FirstStored(s0, x, delay);
    FirstInvalidated(s1, x, delay);
    FirstRead(s2, x, delay);
    es := Extended(now, [], Store(x), delay, s0, s1);
    es := Extended(now, es, Invalidate(0), delay, s1, s2);
    es := Extended(now, es, Read(x.entity), delay, s2, ReadOnce(now, x));
  }

  /** The entity has a first measurement `x` in the cache and a later one `y` in the log. */
  ghost predicate Stale(s: State, x: Snapshot, y: Snapshot) {
    && x.entity in s.cache && s.log == [x, y]
    && Get(s, x.entity) == Dampened(x) && Index(s.log, x.entity) == Dampened(y)
  }

  lemma LatestOfTwo(x: Snapshot, y: Snapshot)
    requires x.entity == y.entity && x.timestamp < y.timestamp
    ensures Index([x, y], x.entity) == Dampened(y)
  {
    assert [x, y][..1] == [x] && [x][..0] == [];
    assert Latest([x], x.entity) == Some(x);
  }

  /** Any later measurement is overlooked while its webhook is being processed, and for good once that
      webhook failed. */
  lemma OpenOrFailedIsStale(now: real, x: Snapshot, y: Snapshot, delay: real) returns (es: seq<Event>, fs: seq<Event>)
    requires 0.0 <= delay && x.entity == y.entity && x.timestamp < y.timestamp
    ensures Stale(Run(now, es, delay), x, y) && Run(now, es, delay).open == {1}
    ensures Stale(Run(now, fs, delay), x, y) && Run(now, fs, delay).failed == {1}
  {
    var e, r := x.entity, Reading(x.entity, Dampened(x), 1, now, {});
    var s0 := ReadOnce(now, x);
    var s1 := s0.(readers := [], cache := map[e := Cached(r, now + CACHE_TTL)]);
    var s2 := s1.(log := [x, y], arrived := [now, now], open := {1});
    var s3 := s2.(open := {}, failed := {1});
    FilledLate(s0, r, delay);
    StoredLater(s1, x, y, delay);
    LatestOfTwo(x, y);
    assert Stale(s2, x, y) && Stale(s3, x, y);
    es := ReadOnceRun(now, x, delay);
    es := Extended(now, es, Fill(0), delay, s0, s1);
    es := Extended(now, es, Store(y), delay, s1, s2);
    assert s2.open - {1} == {} && s2.failed + {1} == {1};
    fs := Extended(now, es, Fail(1), delay, s2, s3);
  }

  lemma StoredLater(s: State, x: Snapshot, y: Snapshot, delay: real)
    requires s.log == [x] && |s.arrived| == 1 && s.open == {}
    ensures Apply(s, Store(y), delay) == s.(log := [x, y], arrived := [s.arrived[0], s.now], open := {1})
  {
    assert s.log + [y] == [x, y] && s.arrived + [s.now] == [s.arrived[0], s.now];
  }

  lemma MissedByReader(s: State, r: Reading, x: Snapshot, y: Snapshot, delay: real)
    requires s.log == [x, y] && s.open == {1} && s.cache == map[] && s.readers == [r] && r.missed == {} && r.entity == y.entity
    ensures Apply(s, Invalidate(1), delay) == s.(open := {}, readers := [r.(missed := {1})])
  {
    assert r.missed + {1} == {1};
    assert Note([r], y.entity, 1)[0] == r.(missed := {1});
    assert s.cache - {y.entity} == map[] && s.open - {1} == {};
  }

  lemma FilledLate(s: State, r: Reading, delay: real)
    requires s.readers == [r] && s.cache == map[] && s.now <= r.readAt + delay
    ensures Apply(s, Fill(0), delay) == s.(readers := [], cache := map[r.entity := Cached(r, s.now + CACHE_TTL)])
  {
    assert s.readers[..0] + s.readers[1..] == [];
  }

  /** Or when its webhook finished between a reader's reading and that reader's filling of the cache. */
  lemma RacedFillIsStale(now: real, x: Snapshot, y: Snapshot, delay: real) returns (es: seq<Event>)
    requires 0.0 <= delay && x.entity == y.entity && x.timestamp < y.timestamp
    ensures Stale(Run(now, es, delay), x, y)
    ensures Run(now, es, delay).open == {} && Run(now, es, delay).failed == {}
  {
    var r := Reading(x.entity, Dampened(x), 1, now, {});
    var r' := r.(missed := {1});
    var s0 := ReadOnce(now, x);
    var s1 := s0.(log := [x, y], arrived := [now, now], open := {1});
    var s2 := s1.(open := {}, readers := [r']);
    var s3 := s2.(readers := [], cache := map[x.entity := Cached(r', now + CACHE_TTL)]);
    StoredLater(s0, x, y, delay);
    MissedByReader(s1, r, x, y, delay);
    FilledLate(s2, r', delay);
    LatestOfTwo(x, y);
    assert Stale(s3, x, y);
    es := ReadOnceRun(now, x, delay);
    es := Extended(now, es, Store(y), delay, s0, s1);
    es := Extended(now, es, Invalidate(1), delay, s1, s2);
    es := Extended(now, es, Fill(0), delay, s2, s3);
  }
}
