/** The perception service object: webhooks come in, perception indices are read. */
module PerceptionService {
  import opened TimedStore
  import opened PerceptionGraph
  import opened PerceptionIndex

  datatype IndexField = Missing | NotANumber | Value(value: real)
  datatype TimeField = Absent | Malformed | At(time: int)

  datatype PerceptionData = PerceptionData(
    index: IndexField, manipulation: Option<real>, timestamp: TimeField, graphId: Option<string>)

  datatype Webhook = Webhook(
    entityType: Option<string>, entityId: Option<string>, data: Option<PerceptionData>, graph: Option<Payload>)

  datatype Status = AUTH_ERROR | VALIDATION_ERROR | FAILED | SUCCESS

  predicate ValidPayload(w: Webhook) {
    && w.entityType.Some? && w.entityId.Some? && w.data.Some?
    && w.entityType.value in {"collection", "nft", "trait"}
    && w.data.value.index.Value? && 0.0 <= w.data.value.index.value <= 1.0
  }

  /** Snapshots of traits cannot be created: the model has no field of that name. */
  predicate Storable(w: Webhook, known: set<Entity>) {
    && ValidPayload(w)
    && Entity(w.entityType.value, w.entityId.value) in known
    && w.entityType.value != "trait"
    && !w.data.value.timestamp.Malformed?
  }

  function SnapshotOf(w: Webhook, now: int): Snapshot
    requires ValidPayload(w)
  {
    var d := w.data.value;
    Snapshot(Entity(w.entityType.value, w.entityId.value), if d.timestamp.At? then d.timestamp.time else now,
             d.index.value, d.manipulation)
  }

  // ---------------------------------------------------------------- the log that webhooks leave

  /** What `Storable` asks of a webhook that names its data: a known collection or NFT, an index from 0 to 1, and a
      time that is absent or can be read. */
  lemma StorableIff(kind: string, id: string, d: PerceptionData, graph: Option<Payload>, known: set<Entity>)
    ensures Storable(Webhook(Some(kind), Some(id), Some(d), graph), known) <==>
      && kind in {"collection", "nft"} && Entity(kind, id) in known
      && d.index.Value? && d.index.value >= 0.0 && d.index.value <= 1.0
      && d.timestamp != Malformed
  {}

  /** A webhook and the time of its arrival. */
  datatype Arrival = Arrival(webhook: Webhook, now: int)

  /** The snapshots stored after webhooks that passed authentication arrived one after the other. */
  function Log(known: set<Entity>, ws: seq<Arrival>): seq<Snapshot> {
    if ws == [] then []
    else
      var log, last := Log(known, ws[..|ws| - 1]), ws[|ws| - 1];
      if Storable(last.webhook, known) then log + [SnapshotOf(last.webhook, last.now)] else log
  }

  /** Webhook `w` stored at `now` is a measurement of `e` at `time`. */
  ghost predicate Measures(w: Webhook, now: int, known: set<Entity>, e: Entity, time: int) {
    && Storable(w, known) && w.entityType == Some(e.kind) && w.entityId == Some(e.id)
    && (w.data.value.timestamp == At(time) || (w.data.value.timestamp == Absent && time == now))
  }

  lemma {:induction false} LogMembers(known: set<Entity>, ws: seq<Arrival>, x: Snapshot)
    ensures x in Log(known, ws) <==>
      exists i: nat :: i < |ws| && Measures(ws[i].webhook, ws[i].now, known, x.entity, x.timestamp)
        && ws[i].webhook.data.value.index == Value(x.index) && ws[i].webhook.data.value.manipulation == x.manipulation
  {
    if ws != [] {
      var n := |ws| - 1;
      LogMembers(known, ws[..n], x);
      assert forall i: nat :: i < n ==> ws[..n][i] == ws[i];
    }
  }

  lemma LatestIsNewest(known: set<Entity>, ws: seq<Arrival>, i: nat, e: Entity, time: int)
    requires i < |ws| && Measures(ws[i].webhook, ws[i].now, known, e, time)
    requires forall j: nat, t: int :: j < |ws| && j != i && Measures(ws[j].webhook, ws[j].now, known, e, t) ==> t < time
    ensures Latest(Log(known, ws), e) ==
      Some(Snapshot(e, time, ws[i].webhook.data.value.index.value, ws[i].webhook.data.value.manipulation))
  {
    var d, log := ws[i].webhook.data.value, Log(known, ws);
    LogMembers(known, ws, Snapshot(e, time, d.index.value, d.manipulation));
    LatestIsMaximum(log, e);
    var x := Latest(log, e).value;
    LogMembers(known, ws, x);
    var j: nat :| j < |ws| && Measures(ws[j].webhook, ws[j].now, known, e, x.timestamp)
      && ws[j].webhook.data.value.index == Value(x.index) && ws[j].webhook.data.value.manipulation == x.manipulation;
    assert j == i;
  }

  /** The index of an entity is that of its latest measurement, by the time of measuring, in whatever order the
      webhooks arrive; the time of arrival counts only for a webhook that names no time.  Above a manipulation
      probability of 0.7 it is drawn towards 0.5 by half that probability. */
  lemma LatestMeasurementWins(
    known: set<Entity>, ws: seq<Arrival>, i: nat, e: Entity, time: int, index: real, manipulation: Option<real>)
    requires i < |ws| && Measures(ws[i].webhook, ws[i].now, known, e, time)
    requires ws[i].webhook.data.value.index == Value(index) && ws[i].webhook.data.value.manipulation == manipulation
    requires forall j: nat, t: int :: j < |ws| && j != i && Measures(ws[j].webhook, ws[j].now, known, e, t) ==> t < time
    ensures Index(Log(known, ws), e) ==
      if manipulation.Some? && manipulation.value > 0.7 then index + (0.5 - index) * (manipulation.value / 2.0) else index
  {
    LatestIsNewest(known, ws, i, e, time);
    DrawnTowardsNeutral(Snapshot(e, time, index, manipulation), index, manipulation);
  }

  lemma DrawnTowardsNeutral(x: Snapshot, index: real, manipulation: Option<real>)
    requires x.index == index && x.manipulation == manipulation
    ensures Dampened(x) ==
      if manipulation.Some? && manipulation.value > 0.7 then index + (0.5 - index) * (manipulation.value / 2.0) else index
  {
    if manipulation.Some? {
      var f := manipulation.value / 2.0;
      assert index * (1.0 - f) + 0.5 * f == index + (0.5 - index) * f;
    }
  }

  /** Two measurements of one entity, whichever arrives first: the later one decides. */
  lemma EitherOrder(known: set<Entity>, v: Webhook, w: Webhook, e: Entity, s: int, t: int, now: int, later: int)
    requires Measures(v, now, known, e, s) && Measures(w, now, known, e, t)
    requires v.data.value.timestamp == At(s) && w.data.value.timestamp == At(t) && s < t
    requires w.data.value.manipulation == None
    ensures Index(Log(known, [Arrival(v, now), Arrival(w, later)]), e) == w.data.value.index.value
    ensures Index(Log(known, [Arrival(w, now), Arrival(v, later)]), e) == w.data.value.index.value
  {
    LatestMeasurementWins(known, [Arrival(v, now), Arrival(w, later)], 1, e, t, w.data.value.index.value, None);
    LatestMeasurementWins(known, [Arrival(w, now), Arrival(v, later)], 0, e, t, w.data.value.index.value, None);
  }

  /** Whatever arrives, an index stays in [0, 1] if no stored webhook has a manipulation probability above 4. */
  lemma IndexInRange(known: set<Entity>, ws: seq<Arrival>, e: Entity)
    requires forall i: nat :: i < |ws| && Storable(ws[i].webhook, known) && ws[i].webhook.data.value.manipulation.Some? ==>
               ws[i].webhook.data.value.manipulation.value <= 4.0
    ensures 0.0 <= Index(Log(known, ws), e) <= 1.0
  {
    LatestIsMaximum(Log(known, ws), e);
    if Latest(Log(known, ws), e).Some? {
      var x := Latest(Log(known, ws), e).value;
      LogMembers(known, ws, x);
      StaysInRangeIff(x.manipulation);
    }
  }

  function LoadGraph(s: Graphs, w: Webhook): (Graphs, bool)
    requires ValidPayload(w)
  {
    if w.graph.Some? then Load(s, w.data.value.graphId, w.graph.value) else (s, true)
  }

  class Service {
    var snapshots: seq<Snapshot>
    var nodes: map<NodeKey, NodeData>
    var edges: seq<Edge>
    var cache: Store<Entity, real>
    var webhookLog: seq<Status>

    constructor ()
      ensures snapshots == [] && Stored() == Graphs(map[], []) && cache == map[] && webhookLog == []
    {
      snapshots, nodes, edges, cache, webhookLog := [], map[], [], map[], [];
    }

    function Stored(): Graphs
      reads this
    {
      Graphs(nodes, edges)
    }

    /** Snapshot `x` has the payload's own entity, index and manipulation probability, and the payload's time of
        measuring, or the time of arrival if it names none. */
    predicate Carries(x: Snapshot, w: Webhook, now: int)
      requires ValidPayload(w)
    {
      && x.entity.kind == w.entityType.value && x.entity.id == w.entityId.value
      && Value(x.index) == w.data.value.index && x.manipulation == w.data.value.manipulation
      && (w.data.value.timestamp.At? ==> x.timestamp == w.data.value.timestamp.time)
      && (w.data.value.timestamp.Absent? ==> x.timestamp == now)
    }

    /** Stores what it can; the first entry that fails ends it. */
    method ProcessPerceptionGraph(g: Option<string>, p: Payload) returns (ok: bool)
      modifies this`nodes, this`edges
      ensures Stored() == Load(old(Stored()), g, p).0 && ok == Load(old(Stored()), g, p).1
    {
      var i := 0;
      while i < |p.nodes|
        invariant i <= |p.nodes| && edges == old(edges)
        invariant LoadNodes(Stored(), g, p.nodes[i..]) == LoadNodes(old(Stored()), g, p.nodes)
      {
        var e := p.nodes[i];
        assert p.nodes[i..][1..] == p.nodes[i + 1..];
        if g == None || e.id == None {
          return false;
        }
        nodes := nodes[NodeKey(g.value, e.id.value) :=
          NodeData(GetOr(e.kind, "unknown"), GetOr(e.title, ""), GetOr(e.influence, 0.0), e.sentiment)];
        i := i + 1;
      }
      assert Stored() == LoadNodes(old(Stored()), g, p.nodes).0;
      ghost var loaded := Stored();
      i := 0;
      while i < |p.edges|
        invariant i <= |p.edges|
        invariant LoadEdges(Stored(), g, p.edges[i..]) == LoadEdges(loaded, g, p.edges)
      {
        var e := p.edges[i];
        assert p.edges[i..][1..] == p.edges[i + 1..];
        if g == None || e.source == None || e.target == None {
          return false;
        }
        var source, target := NodeKey(g.value, e.source.value), NodeKey(g.value, e.target.value);
        if source !in nodes || target !in nodes {
          return false;
        }
        edges := edges + [Edge(g.value, source, target, GetOr(e.kind, "relates_to"), GetOr(e.weight, 1.0), e.sentiment)];
        i := i + 1;
      }
      ok := true;
    }

    /** A webhook changes nothing but the log unless its snapshot can be stored.  If it can, the snapshot
        and what loads of the graph stay stored, and the entity's cached index is dropped exactly if the
        whole graph loaded. */
    method ProcessWebhook(w: Webhook, authenticated: bool, known: set<Entity>, now: int) returns (status: Status)
      modifies this
      ensures webhookLog == old(webhookLog) + [status]
      ensures !authenticated <==> status == AUTH_ERROR
      ensures status == VALIDATION_ERROR <==>
        && authenticated
        && !(&& w.entityType.Some? && w.entityId.Some? && w.data.Some?
             && w.entityType.value in {"collection", "nft", "trait"}
             && w.data.value.index.Value? && 0.0 <= w.data.value.index.value <= 1.0)
      ensures authenticated && Storable(w, known) && LoadGraph(old(Stored()), w).1 <==> status == SUCCESS
      ensures !(authenticated && Storable(w, known)) ==>
        snapshots == old(snapshots) && Stored() == old(Stored()) && cache == old(cache)
      ensures authenticated && Storable(w, known) ==>
        && |snapshots| == |old(snapshots)| + 1 && snapshots[..|old(snapshots)|] == old(snapshots)
        && Carries(snapshots[|old(snapshots)|], w, now)
        && snapshots[|old(snapshots)|] == SnapshotOf(w, now)
        && Stored() == LoadGraph(old(Stored()), w).0
        && cache == if status == SUCCESS then old(cache) - {Entity(w.entityType.value, w.entityId.value)} else old(cache)
      ensures authenticated && Storable(w, known) ==>
        match w.graph
        case None => status == SUCCESS && Stored() == old(Stored())
        case Some(p) =>
          var (loaded, whole) := Load(old(Stored()), w.data.value.graphId, p);
          Stored() == loaded && (status == SUCCESS <==> whole)
    {
      if !authenticated {
        status := AUTH_ERROR;
      } else if w.entityType == None || w.entityId == None || w.data == None {
        status := VALIDATION_ERROR;
      } else if w.entityType.value !in {"collection", "nft", "trait"} {
        status := VALIDATION_ERROR;
      } else if !w.data.value.index.Value? || !(0.0 <= w.data.value.index.value <= 1.0) {
        status := VALIDATION_ERROR;
      } else {
        status := StoreSnapshot(w, known, now);
      }
      webhookLog := webhookLog + [status];
    }

    /** The part of webhook processing inside the `try`. */
    method StoreSnapshot(w: Webhook, known: set<Entity>, now: int) returns (status: Status)
      requires ValidPayload(w)
      modifies this`snapshots, this`nodes, this`edges, this`cache
      ensures status in {FAILED, SUCCESS}
      ensures status == SUCCESS <==> Storable(w, known) && LoadGraph(old(Stored()), w).1
      ensures !Storable(w, known) ==> snapshots == old(snapshots) && Stored() == old(Stored()) && cache == old(cache)
      ensures Storable(w, known) ==>
        && |snapshots| == |old(snapshots)| + 1 && snapshots[..|old(snapshots)|] == old(snapshots)
        && Carries(snapshots[|old(snapshots)|], w, now)
        && snapshots[|old(snapshots)|] == SnapshotOf(w, now)
        && Stored() == LoadGraph(old(Stored()), w).0
        && cache == if status == SUCCESS then old(cache) - {Entity(w.entityType.value, w.entityId.value)} else old(cache)
    {
      var entity, data := Entity(w.entityType.value, w.entityId.value), w.data.value;
      if entity !in known || entity.kind == "trait" || data.timestamp.Malformed? {
        return FAILED;
      }
      var time := if data.timestamp.At? then data.timestamp.time else now;
      snapshots := snapshots + [Snapshot(entity, time, data.index.value, data.manipulation)];
      if w.graph.Some? {
        var loaded := ProcessPerceptionGraph(data.graphId, w.graph.value);
        if !loaded {
          return FAILED;
        }
      }
      cache := cache - {entity};
      status := SUCCESS;
    }

    /** A cached index if there is one, else the dampened index of the latest measurement, which is then
        cached for 300 seconds; the default is not cached. */
    method GetPerceptionIndex(entity: Entity, useCache: bool, now: real) returns (index: real)
      modifies this`cache
      ensures index == if useCache && Readable(old(cache), entity, now) then old(cache)[entity].value else Index(snapshots, entity)
      ensures cache ==
        if useCache && !Readable(old(cache), entity, now) && Latest(snapshots, entity).Some?
        then Put(old(cache), entity, index, now, 300.0) else old(cache)
    {
      if useCache {
        var cached := Lookup(cache, entity, now);
        if cached.Some? {
          return cached.value;
        }
      }
      var snapshot := Latest(snapshots, entity);
      if snapshot == None {
        return 0.5;
      }
      index := snapshot.value.index;
      if snapshot.value.manipulation.Some? && snapshot.value.manipulation.value > 0.7 {
        var dampening := snapshot.value.manipulation.value * 0.5;
        index := index * (1.0 - dampening) + 0.5 * dampening;
      }
      if useCache {
        cache := Put(cache, entity, index, now, 300.0);
      }
    }
  }
}
