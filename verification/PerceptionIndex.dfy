/** Perception snapshots, ordered by when they were measured, and the index computed from them. */
module PerceptionIndex {
  import opened TimedStore

  datatype Entity = Entity(kind: string, id: string)

  datatype Snapshot = Snapshot(entity: Entity, timestamp: int, index: real, manipulation: Option<real>)

  const DEFAULT_PERCEPTION_INDEX := 0.5

  /** The snapshot of `e` with the latest measurement time. */
  function Latest(log: seq<Snapshot>, e: Entity): Option<Snapshot> {
    if log == [] then None
    else
      var before, x := Latest(log[..|log| - 1], e), log[|log| - 1];
      if x.entity == e && (before == None || before.value.timestamp < x.timestamp) then Some(x) else before
  }

  /** A suspected manipulation pulls the index towards the neutral 0.5. */
  function Dampened(x: Snapshot): real {
    if x.manipulation.Some? && x.manipulation.value > 0.7 then
      var factor := x.manipulation.value * 0.5;
      x.index * (1.0 - factor) + 0.5 * factor
    else x.index
  }

  function Index(log: seq<Snapshot>, e: Entity): real {
    var x := Latest(log, e);
    if x.Some? then Dampened(x.value) else DEFAULT_PERCEPTION_INDEX
  }

  lemma {:induction false} LatestIsMaximum(log: seq<Snapshot>, e: Entity)
    ensures
      match Latest(log, e)
      case None => forall y :: y in log ==> y.entity != e
      case Some(x) => x in log && x.entity == e && forall y :: y in log && y.entity == e ==> y.timestamp <= x.timestamp
  {
    if log != [] {
      LatestIsMaximum(log[..|log| - 1], e);
      assert forall y :: y in log ==> y in log[..|log| - 1] || y == log[|log| - 1];
    }
  }

  ghost predicate DistinctTimes(log: seq<Snapshot>, e: Entity) {
    forall x, y :: x in log && y in log && x.entity == e && y.entity == e && x.timestamp == y.timestamp ==> x == y
  }

  /** In whatever order the same measurements arrive, the index is the same. */
  lemma ArrivalOrderIrrelevant(log: seq<Snapshot>, log': seq<Snapshot>, e: Entity)
    requires DistinctTimes(log, e) && forall x :: x in log <==> x in log'
    ensures Index(log, e) == Index(log', e)
  {
    LatestIsMaximum(log, e);
    LatestIsMaximum(log', e);
  }

  /** Snapshots that arrive later but were measured earlier, or are of other entities, change nothing. */
  lemma {:induction false} LateArrivals(log: seq<Snapshot>, n: nat, e: Entity)
    requires n <= |log| && Latest(log[..n], e).Some?
    requires forall i: nat :: n <= i < |log| && log[i].entity == e ==> log[i].timestamp < Latest(log[..n], e).value.timestamp
    ensures Latest(log, e) == Latest(log[..n], e)
    decreases |log|
  {
    if n == |log| {
      assert log[..n] == log;
    } else {
      var m := |log| - 1;
      assert log[..m][..n] == log[..n];
      LateArrivals(log[..m], n, e);
    }
  }

  // ---------------------------------------------------------------- dampening

  /** Above the threshold of 0.7 the distance from the neutral 0.5 is scaled by one minus half the
      manipulation probability. */
  lemma DampeningScales(x: Snapshot)
    ensures Dampened(x) - 0.5 == (x.index - 0.5) * Scale(x.manipulation)
  {
    if x.manipulation.Some? && x.manipulation.value > 0.7 {
      var f := x.manipulation.value * 0.5;
      assert x.index * (1.0 - f) + 0.5 * f - 0.5 == (x.index - 0.5) * (1.0 - f);
    }
  }

  function Scale(p: Option<real>): real { if p.Some? && p.value > 0.7 then 1.0 - p.value * 0.5 else 1.0 }

  lemma Scaled(d: real, c: real, e: real)
    requires c <= 1.0 && e == d * c
    ensures 0.0 <= c ==> (d >= 0.0 ==> 0.0 <= e <= d) && (d <= 0.0 ==> d <= e <= 0.0)
    ensures -1.0 <= c ==> (d >= 0.0 ==> -d <= e <= d) && (d <= 0.0 ==> d <= e <= -d)
    ensures c == 0.5 ==> e == d / 2.0
  {
    Sign(d, c);
    Sign(d, 1.0 - c);
    Sign(d, 1.0 + c);
    assert d * (1.0 - c) == d - e && d * (1.0 + c) == d + e;
  }

  lemma Sign(d: real, c: real)
    ensures 0.0 <= c && d >= 0.0 ==> d * c >= 0.0
    ensures 0.0 <= c && d <= 0.0 ==> d * c <= 0.0
  {}

  lemma Distance(x: Snapshot)
    ensures
      var d, e, c := x.index - 0.5, Dampened(x) - 0.5, Scale(x.manipulation);
      && (0.0 <= c ==> (d >= 0.0 ==> 0.0 <= e <= d) && (d <= 0.0 ==> d <= e <= 0.0))
      && (-1.0 <= c ==> (d >= 0.0 ==> -d <= e <= d) && (d <= 0.0 ==> d <= e <= -d))
      && (c == 0.5 ==> e == d / 2.0)
  {
    DampeningScales(x);
    Scaled(x.index - 0.5, Scale(x.manipulation), Dampened(x) - 0.5);
  }

  /** The dampened index is on its side of 0.5, no further from it than before, as long as the manipulation
      probability is at most 2; certain manipulation halves the distance. */
  lemma DampeningPullsToNeutral(x: Snapshot)
    requires x.manipulation.Some? ==> x.manipulation.value <= 2.0
    ensures x.index >= 0.5 ==> 0.5 <= Dampened(x) <= x.index
    ensures x.index <= 0.5 ==> x.index <= Dampened(x) <= 0.5
    ensures x.manipulation == Some(1.0) ==> Dampened(x) - 0.5 == (x.index - 0.5) / 2.0
  {
    Distance(x);
  }

  /** `_validate_payload` lets an index from 0 to 1 through and does not look at the manipulation probability. */
  ghost predicate StaysInRange(p: Option<real>) {
    forall x: Snapshot :: 0.0 <= x.index <= 1.0 && x.manipulation == p ==> 0.0 <= Dampened(x) <= 1.0
  }

  ghost predicate KeepsItsSide(p: Option<real>) {
    forall x: Snapshot :: 0.0 <= x.index <= 1.0 && x.manipulation == p ==>
      (x.index >= 0.5 ==> Dampened(x) >= 0.5) && (x.index <= 0.5 ==> Dampened(x) <= 0.5)
  }

  /** Every validated index stays between 0 and 1 exactly when the probability is at most 4. */
  lemma StaysInRangeIff(p: Option<real>)
    ensures StaysInRange(p) <==> (p.Some? ==> p.value <= 4.0)
  {
    if p.Some? && p.value > 4.0 {
      var x := Snapshot(Entity("", ""), 0, 1.0, p);
      DampeningScales(x);
      assert 0.0 <= x.index <= 1.0 && Dampened(x) < 0.0;
    } else {
      forall x: Snapshot | 0.0 <= x.index <= 1.0 && x.manipulation == p ensures 0.0 <= Dampened(x) <= 1.0 {
        Distance(x);
      }
    }
  }

  /** Every validated index stays on its side of 0.5 exactly when the probability is at most 2. */
  lemma KeepsItsSideIff(p: Option<real>)
    ensures KeepsItsSide(p) <==> (p.Some? ==> p.value <= 2.0)
  {
    if p.Some? && p.value > 2.0 {
      var x := Snapshot(Entity("", ""), 0, 1.0, p);
      DampeningScales(x);
      assert 0.0 <= x.index <= 1.0 && Dampened(x) < 0.5;
    } else {
      forall x: Snapshot | 0.0 <= x.index <= 1.0 && x.manipulation == p
        ensures (x.index >= 0.5 ==> Dampened(x) >= 0.5) && (x.index <= 0.5 ==> Dampened(x) <= 0.5)
      {
        DampeningPullsToNeutral(x);
      }
    }
  }

  /** A stored probability of 10 turns the best index into a negative one. */
  lemma IndexOutOfRange(e: Entity, time: int)
    ensures
      var x := Snapshot(e, time, 1.0, Some(10.0));
      0.0 <= x.index <= 1.0 && Index([x], e) == -1.5
  {
    var x := Snapshot(e, time, 1.0, Some(10.0));
    assert [x][..0] == [] && Latest([x], e) == Some(x);
  }
}
