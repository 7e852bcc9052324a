/** Loading perception graphs: nodes are updated or created one by one, then edges are created between
    existing nodes, and the load stops at the first entry that fails, keeping what it has stored. */
module PerceptionGraph {
  import opened TimedStore

  datatype NodeData = NodeData(kind: string, title: string, influence: real, sentiment: Option<string>)

  datatype NodeKey = NodeKey(graph: string, node: string)

  datatype Edge = Edge(graph: string, source: NodeKey, target: NodeKey, kind: string, weight: real, sentiment: Option<string>)

  /** Payload entries; a missing field is `None`. */
  datatype NodeEntry = NodeEntry(
    id: Option<string>, kind: Option<string>, title: Option<string>, influence: Option<real>, sentiment: Option<string>)
  datatype EdgeEntry = EdgeEntry(
    source: Option<string>, target: Option<string>, kind: Option<string>, weight: Option<real>, sentiment: Option<string>)
  datatype Payload = Payload(nodes: seq<NodeEntry>, edges: seq<EdgeEntry>)

  datatype Graphs = Graphs(nodes: map<NodeKey, NodeData>, edges: seq<Edge>)

  function GetOr<T>(o: Option<T>, d: T): T { if o.Some? then o.value else d }

  function NodeOf(e: NodeEntry): NodeData {
    NodeData(GetOr(e.kind, "unknown"), GetOr(e.title, ""), GetOr(e.influence, 0.0), e.sentiment)
  }

  function EdgeOf(g: string, e: EdgeEntry): Edge
    requires e.source.Some? && e.target.Some?
  {
    Edge(g, NodeKey(g, e.source.value), NodeKey(g, e.target.value),
         GetOr(e.kind, "relates_to"), GetOr(e.weight, 1.0), e.sentiment)
  }

  /** A node entry needs an id, and a graph needs an id too. */
  predicate NodeLoads(g: Option<string>, e: NodeEntry) { g.Some? && e.id.Some? }

  predicate EdgeLoads(s: Graphs, g: Option<string>, e: EdgeEntry) {
    && g.Some? && e.source.Some? && e.target.Some?
    && NodeKey(g.value, e.source.value) in s.nodes && NodeKey(g.value, e.target.value) in s.nodes
  }

  function PutNode(s: Graphs, g: Option<string>, e: NodeEntry): Graphs
    requires NodeLoads(g, e)
  {
    s.(nodes := s.nodes[NodeKey(g.value, e.id.value) := NodeOf(e)])
  }

  function AddEdge(s: Graphs, g: Option<string>, e: EdgeEntry): Graphs
    requires EdgeLoads(s, g, e)
  {
    s.(edges := s.edges + [EdgeOf(g.value, e)])
  }

  /** The store after the nodes, and whether all of them were stored. */
  function LoadNodes(s: Graphs, g: Option<string>, es: seq<NodeEntry>): (Graphs, bool)
    decreases |es|
  {
    if es == [] then (s, true)
    else if !NodeLoads(g, es[0]) then (s, false)
    else LoadNodes(PutNode(s, g, es[0]), g, es[1..])
  }

  function LoadEdges(s: Graphs, g: Option<string>, es: seq<EdgeEntry>): (Graphs, bool)
    decreases |es|
  {
    if es == [] then (s, true)
    else if !EdgeLoads(s, g, es[0]) then (s, false)
    else LoadEdges(AddEdge(s, g, es[0]), g, es[1..])
  }

  function Load(s: Graphs, g: Option<string>, p: Payload): (Graphs, bool) {
    var (s1, ok) := LoadNodes(s, g, p.nodes);
    if ok then LoadEdges(s1, g, p.edges) else (s1, false)
  }

  // ---------------------------------------------------------------- edges join existing nodes

  /** Every stored edge joins two existing nodes of its own graph. */
  ghost predicate Closed(s: Graphs) {
    forall e :: e in s.edges ==>
      e.source in s.nodes && e.target in s.nodes && e.source.graph == e.graph && e.target.graph == e.graph
  }

  lemma {:induction false} LoadNodesClosed(s: Graphs, g: Option<string>, es: seq<NodeEntry>)
    requires Closed(s)
    ensures Closed(LoadNodes(s, g, es).0)
    decreases |es|
  {
    if es != [] && NodeLoads(g, es[0]) {
      LoadNodesClosed(PutNode(s, g, es[0]), g, es[1..]);
    }
  }

  lemma {:induction false} LoadEdgesClosed(s: Graphs, g: Option<string>, es: seq<EdgeEntry>)
    requires Closed(s)
    ensures Closed(LoadEdges(s, g, es).0)
    decreases |es|
  {
    if es != [] && EdgeLoads(s, g, es[0]) {
      var s' := AddEdge(s, g, es[0]);
      forall e | e in s'.edges
        ensures e.source in s'.nodes && e.target in s'.nodes && e.source.graph == e.graph && e.target.graph == e.graph
      {
        assert e in s.edges || e == EdgeOf(g.value, es[0]);
      }
      LoadEdgesClosed(s', g, es[1..]);
    }
  }

  function LoadAll(ps: seq<(Option<string>, Payload)>): Graphs {
    if ps == [] then Graphs(map[], [])
    else Load(LoadAll(ps[..|ps| - 1]), ps[|ps| - 1].0, ps[|ps| - 1].1).0
  }

  /** After any sequence of webhooks, wherever each of them failed, no edge dangles. */
  lemma {:induction false} NoDanglingEdge(ps: seq<(Option<string>, Payload)>)
    ensures Closed(LoadAll(ps))
  {
    if ps != [] {
      var s, g, p := LoadAll(ps[..|ps| - 1]), ps[|ps| - 1].0, ps[|ps| - 1].1;
      NoDanglingEdge(ps[..|ps| - 1]);
      LoadNodesClosed(s, g, p.nodes);
      LoadEdgesClosed(LoadNodes(s, g, p.nodes).0, g, p.edges);
    }
  }

  // ---------------------------------------------------------------- loads that interleave

  /** A load in progress: what is left of its payload, and how many ends of the next edge it has found. */
  datatype Loading = Loading(graph: Option<string>, nodes: seq<NodeEntry>, edges: seq<EdgeEntry>, found: nat)

  datatype Loads = Loads(graphs: Graphs, loading: seq<Loading>)

  /** `Step` is the next database access of a load. */
  datatype LoadEvent = Begin(graph: Option<string>, payload: Payload) | Step(i: nat)

  function Ended(s: Loads, i: nat): Loads
    requires i < |s.loading|
  {
    s.(loading := s.loading[..i] + s.loading[i + 1..])
  }

  /** Nodes are stored one by one; for an edge first its source is looked up, then its target, and then the
      edge is created.  An entry that fails ends the load. */
  function StepLoad(s: Loads, i: nat): Loads
    requires i < |s.loading|
  {
    var l := s.loading[i];
    if l.nodes != [] then
      if NodeLoads(l.graph, l.nodes[0]) then
        Loads(PutNode(s.graphs, l.graph, l.nodes[0]), s.loading[i := l.(nodes := l.nodes[1..])])
      else Ended(s, i)
    else if l.edges == [] then Ended(s, i)
    else
      var e := l.edges[0];
      if l.graph == None || e.source == None || e.target == None then Ended(s, i)
      else if l.found == 0 then
        if NodeKey(l.graph.value, e.source.value) in s.graphs.nodes then s.(loading := s.loading[i := l.(found := 1)]) else Ended(s, i)
      else if l.found == 1 then
        if NodeKey(l.graph.value, e.target.value) in s.graphs.nodes then s.(loading := s.loading[i := l.(found := 2)]) else Ended(s, i)
      else
        Loads(s.graphs.(edges := s.graphs.edges + [EdgeOf(l.graph.value, e)]), s.loading[i := l.(edges := l.edges[1..], found := 0)])
  }

  function ApplyLoad(s: Loads, e: LoadEvent): Loads {
    match e
    case Begin(g, p) => s.(loading := s.loading + [Loading(g, p.nodes, p.edges, 0)])
    case Step(i) => if i < |s.loading| then StepLoad(s, i) else s
  }

  function RunLoads(es: seq<LoadEvent>): Loads {
    if es == [] then Loads(Graphs(map[], []), []) else ApplyLoad(RunLoads(es[..|es| - 1]), es[|es| - 1])
  }

  /** The ends that a load has found are stored. */
  predicate FoundOk(s: Graphs, l: Loading) {
    l.found > 0 && l.nodes == [] && l.edges != [] && l.graph.Some? && l.edges[0].source.Some? && l.edges[0].target.Some? ==>
      && NodeKey(l.graph.value, l.edges[0].source.value) in s.nodes
      && (l.found > 1 ==> NodeKey(l.graph.value, l.edges[0].target.value) in s.nodes)
  }

  ghost predicate LoadsOk(s: Loads) {
    && Closed(s.graphs)
    && forall i: nat :: i < |s.loading| ==>
         FoundOk(s.graphs, s.loading[i]) && (s.loading[i].nodes != [] ==> s.loading[i].found == 0)
  }

  lemma ApplyLoadOk(s: Loads, e: LoadEvent)
    requires LoadsOk(s)
    ensures LoadsOk(ApplyLoad(s, e))
    ensures s.graphs.nodes.Keys <= ApplyLoad(s, e).graphs.nodes.Keys && s.graphs.edges <= ApplyLoad(s, e).graphs.edges
  {
    var s' := ApplyLoad(s, e);
    if e.Step? && e.i < |s.loading| {
      assert FoundOk(s.graphs, s.loading[e.i]);
    }
    forall i: nat | i < |s'.loading|
      ensures FoundOk(s'.graphs, s'.loading[i]) && (s'.loading[i].nodes != [] ==> s'.loading[i].found == 0)
    {
      assert s'.loading[i] in s.loading ==> exists j: nat :: j < |s.loading| && s.loading[j] == s'.loading[i];
    }
  }

  /** However any number of loads interleave, of one graph or of several, and wherever each of them ends, no
      edge ever dangles. */
  lemma {:induction false} NoDanglingEdgeInterleaved(es: seq<LoadEvent>)
    ensures LoadsOk(RunLoads(es)) && Closed(RunLoads(es).graphs)
  {
    if es != [] {
      NoDanglingEdgeInterleaved(es[..|es| - 1]);
      ApplyLoadOk(RunLoads(es[..|es| - 1]), es[|es| - 1]);
    }
  }

  /** The first load takes `n` steps and no other one any. */
  function Alone(s: Loads, n: nat): Loads
    decreases n
  {
    if n == 0 then s else Alone(ApplyLoad(s, Step(0)), n - 1)
  }

  lemma {:induction false} EdgesAlone(s: Graphs, g: Option<string>, es: seq<EdgeEntry>) returns (n: nat)
    ensures Alone(Loads(s, [Loading(g, [], es, 0)]), n) == Loads(LoadEdges(s, g, es).0, [])
    decreases |es|
  {
    var l := Loading(g, [], es, 0);
    var s0 := Loads(s, [l]);
    var s1 := ApplyLoad(s0, Step(0));
    if es != [] && g.Some? && es[0].source.Some? && es[0].target.Some? && NodeKey(g.value, es[0].source.value) in s.nodes {
      assert s1 == Loads(s, [l.(found := 1)]);
      var s2 := ApplyLoad(s1, Step(0));
      if EdgeLoads(s, g, es[0]) {
        assert s2 == Loads(s, [l.(found := 2)]);
        n := EdgesAlone(AddEdge(s, g, es[0]), g, es[1..]);
        assert ApplyLoad(s2, Step(0)) == Loads(AddEdge(s, g, es[0]), [Loading(g, [], es[1..], 0)]);
        assert Alone(s0, n + 3) == Alone(s1, n + 2) == Alone(s2, n + 1);
        n := n + 3;
      } else {
        assert s2 == Loads(s, []) && Alone(s0, 2) == Alone(s1, 1) == Alone(s2, 0);
        n := 2;
      }
    } else {
      assert s1 == Loads(s, []) && Alone(s0, 1) == Alone(s1, 0);
      n := 1;
    }
  }

  /** A load that nothing interrupts stores what the whole load stores. */
  lemma {:induction false} UndisturbedLoad(s: Graphs, g: Option<string>, p: Payload) returns (n: nat)
    ensures Alone(Loads(s, [Loading(g, p.nodes, p.edges, 0)]), n) == Loads(Load(s, g, p).0, [])
    decreases |p.nodes|
  {
    var s0 := Loads(s, [Loading(g, p.nodes, p.edges, 0)]);
    var s1 := ApplyLoad(s0, Step(0));
    if p.nodes == [] {
      n := EdgesAlone(s, g, p.edges);
    } else if NodeLoads(g, p.nodes[0]) {
      n := UndisturbedLoad(PutNode(s, g, p.nodes[0]), g, Payload(p.nodes[1..], p.edges));
      assert s1 == Loads(PutNode(s, g, p.nodes[0]), [Loading(g, p.nodes[1..], p.edges, 0)]);
      assert Alone(s0, n + 1) == Alone(s1, n);
      n := n + 1;
    } else {
      assert s1 == Loads(s, []) && Alone(s0, 1) == Alone(s1, 0);
      n := 1;
    }
  }

  lemma {:induction false} RunAlone(es: seq<LoadEvent>, n: nat) returns (es': seq<LoadEvent>)
    ensures es <= es' && RunLoads(es') == Alone(RunLoads(es), n)
    decreases n
  {
    if n == 0 {
      es' := es;
    } else {
      assert (es + [Step(0)])[..|es|] == es;
      es' := RunAlone(es + [Step(0)], n - 1);
    }
  }

  /** Whatever loads went before, once they have ended another one can begin and run to its end: whole loads one
      after the other are runs. */
  lemma WholeLoadsAreRuns(es: seq<LoadEvent>, g: Option<string>, p: Payload) returns (es': seq<LoadEvent>)
    requires RunLoads(es).loading == []
    ensures es <= es' && RunLoads(es') == Loads(Load(RunLoads(es).graphs, g, p).0, [])
  {
    var s, es1 := RunLoads(es), es + [Begin(g, p)];
    assert es1[..|es|] == es;
    assert RunLoads(es1) == Loads(s.graphs, [Loading(g, p.nodes, p.edges, 0)]);
    var n := UndisturbedLoad(s.graphs, g, p);
    es' := RunAlone(es1, n);
  }

  // ---------------------------------------------------------------- what a load leaves

  /** The position of the last entry for node `id`, or -1. */
  function LastEntry(es: seq<NodeEntry>, id: string): (i: int)
    ensures -1 <= i < |es|
    ensures i >= 0 ==> es[i].id == Some(id)
    ensures forall j: nat :: i < j < |es| ==> es[j].id != Some(id)
  {
    if es == [] then -1
    else if es[|es| - 1].id == Some(id) then |es| - 1
    else LastEntry(es[..|es| - 1], id)
  }

  lemma {:induction false} LoadNodesLast(s: Graphs, g: string, es: seq<NodeEntry>, k: NodeKey)
    requires LoadNodes(s, Some(g), es).1
    ensures
      var s' := LoadNodes(s, Some(g), es).0;
      && s'.edges == s.edges
      && (if k.graph == g && LastEntry(es, k.node) >= 0
          then k in s'.nodes && s'.nodes[k] == NodeOf(es[LastEntry(es, k.node)])
          else (k in s'.nodes <==> k in s.nodes) && (k in s.nodes ==> s'.nodes[k] == s.nodes[k]))
    decreases |es|
  {
    if es != [] {
      LoadNodesLast(PutNode(s, Some(g), es[0]), g, es[1..], k);
      var i, j := LastEntry(es, k.node), LastEntry(es[1..], k.node);
      if j >= 0 {
        assert es[j + 1] == es[1..][j];
      }
      if i >= 1 {
        assert es[i] == es[1..][i - 1];
      }
    }
  }

  lemma {:induction false} LoadEdgesInOrder(s: Graphs, g: string, es: seq<EdgeEntry>)
    requires LoadEdges(s, Some(g), es).1
    ensures forall i: nat :: i < |es| ==> es[i].source.Some? && es[i].target.Some?
    ensures LoadEdges(s, Some(g), es).0.nodes == s.nodes
    ensures LoadEdges(s, Some(g), es).0.edges
         == s.edges + seq(|es|, i requires 0 <= i < |es| && es[i].source.Some? && es[i].target.Some? => EdgeOf(g, es[i]))
    decreases |es|
  {
    if es != [] {
      var s' := AddEdge(s, Some(g), es[0]);
      LoadEdgesInOrder(s', g, es[1..]);
      assert forall i: nat :: 0 < i < |es| ==> es[i] == es[1..][i - 1];
    }
  }

  lemma CompletedLoadStores(s: Graphs, g: string, p: Payload)
    requires Load(s, Some(g), p).1
    ensures forall i: nat :: i < |p.edges| ==> p.edges[i].source.Some? && p.edges[i].target.Some?
    ensures
      var s' := Load(s, Some(g), p).0;
      && s'.edges == s.edges
           + seq(|p.edges|, i requires 0 <= i < |p.edges| && p.edges[i].source.Some? && p.edges[i].target.Some? => EdgeOf(g, p.edges[i]))
      && forall k: NodeKey ::
           if k.graph == g && LastEntry(p.nodes, k.node) >= 0
           then k in s'.nodes && s'.nodes[k] == NodeOf(p.nodes[LastEntry(p.nodes, k.node)])
           else (k in s'.nodes <==> k in s.nodes) && (k in s.nodes ==> s'.nodes[k] == s.nodes[k])
  {
    var s1 := LoadNodes(s, Some(g), p.nodes).0;
    LoadEdgesInOrder(s1, g, p.edges);
    LoadNodesLast(s, g, p.nodes, NodeKey(g, ""));
    forall k: NodeKey
      ensures
        if k.graph == g && LastEntry(p.nodes, k.node) >= 0
        then k in s1.nodes && s1.nodes[k] == NodeOf(p.nodes[LastEntry(p.nodes, k.node)])
        else (k in s1.nodes <==> k in s.nodes) && (k in s.nodes ==> s1.nodes[k] == s.nodes[k])
    {
      LoadNodesLast(s, g, p.nodes, k);
    }
  }

  /** `stored` is what entry `e` says about a node, with the source's defaults for what it leaves out. */
  predicate NodeStored(stored: NodeData, e: NodeEntry) {
    && (e.kind == Some(stored.kind) || (e.kind == None && stored.kind == "unknown"))
    && (e.title == Some(stored.title) || (e.title == None && stored.title == ""))
    && (e.influence == Some(stored.influence) || (e.influence == None && stored.influence == 0.0))
    && e.sentiment == stored.sentiment
  }

  /** `stored` leads from the entry's source to its target in graph `g`. */
  predicate EdgeStored(stored: Edge, g: string, e: EdgeEntry) {
    && stored.graph == stored.source.graph == stored.target.graph == g
    && e.source == Some(stored.source.node) && e.target == Some(stored.target.node)
    && (e.kind == Some(stored.kind) || (e.kind == None && stored.kind == "relates_to"))
    && (e.weight == Some(stored.weight) || (e.weight == None && stored.weight == 1.0))
    && e.sentiment == stored.sentiment
  }

  /** A completed load leaves, for every node of the payload, its last entry there; it appends the
      payload's edges in order, each from its own source to its own target; every other node, and so every
      other graph, is as before. */
  lemma CompletedLoad(s: Graphs, g: string, p: Payload)
    requires Load(s, Some(g), p).1
    ensures
      var s' := Load(s, Some(g), p).0;
      && |s'.edges| == |s.edges| + |p.edges| && s'.edges[..|s.edges|] == s.edges
      && (forall i: nat :: i < |p.edges| ==> EdgeStored(s'.edges[|s.edges| + i], g, p.edges[i]))
      && forall k: NodeKey ::
           if k.graph == g && LastEntry(p.nodes, k.node) >= 0
           then k in s'.nodes && NodeStored(s'.nodes[k], p.nodes[LastEntry(p.nodes, k.node)])
           else (k in s'.nodes <==> k in s.nodes) && (k in s.nodes ==> s'.nodes[k] == s.nodes[k])
  {
    CompletedLoadStores(s, g, p);
  }

  /** A load that failed has stored a first part of its nodes and, if it reached the edges, a first
      part of those: what a completed load of that part leaves. */
  lemma FailedLoadIsPrefix(s: Graphs, g: Option<string>, p: Payload)
    requires !Load(s, g, p).1
    ensures exists n: nat, m: nat :: n <= |p.nodes| && m <= |p.edges| && (m > 0 ==> n == |p.nodes|)
              && Load(s, g, Payload(p.nodes[..n], p.edges[..m])) == (Load(s, g, p).0, true)
  {
    var n := NodesPrefix(s, g, p.nodes);
    var s1 := LoadNodes(s, g, p.nodes).0;
    if LoadNodes(s, g, p.nodes).1 {
      var m := EdgesPrefix(s1, g, p.edges);
      assert p.nodes[..|p.nodes|] == p.nodes;
      assert Load(s, g, Payload(p.nodes[..|p.nodes|], p.edges[..m])) == (Load(s, g, p).0, true);
    } else {
      assert p.edges[..0] == [];
      assert Load(s, g, Payload(p.nodes[..n], p.edges[..0])) == (Load(s, g, p).0, true);
    }
  }

  lemma {:induction false} NodesPrefix(s: Graphs, g: Option<string>, es: seq<NodeEntry>) returns (n: nat)
    ensures n <= |es| && LoadNodes(s, g, es[..n]) == (LoadNodes(s, g, es).0, true)
    decreases |es|
  {
    if es == [] || !NodeLoads(g, es[0]) {
      n := 0;
    } else {
      n := NodesPrefix(PutNode(s, g, es[0]), g, es[1..]);
      n := n + 1;
      assert es[..n][1..] == es[1..][..n - 1];
    }
  }

  lemma {:induction false} EdgesPrefix(s: Graphs, g: Option<string>, es: seq<EdgeEntry>) returns (n: nat)
    ensures n <= |es| && LoadEdges(s, g, es[..n]) == (LoadEdges(s, g, es).0, true)
    decreases |es|
  {
    if es == [] || !EdgeLoads(s, g, es[0]) {
      n := 0;
    } else {
      n := EdgesPrefix(AddEdge(s, g, es[0]), g, es[1..]);
      n := n + 1;
      assert es[..n][1..] == es[1..][..n - 1];
    }
  }

  /** Sending a completed payload again succeeds, changes no node, and appends its edges once more. */
  lemma RepeatedLoad(s: Graphs, g: string, p: Payload)
    requires Load(s, Some(g), p).1
    ensures
      var s1 := Load(s, Some(g), p).0;
      var (s2, ok) := Load(s1, Some(g), p);
      && ok && s2.nodes == s1.nodes
      && s.edges <= s1.edges && |s1.edges| == |s.edges| + |p.edges|
      && s2.edges == s1.edges + s1.edges[|s.edges|..]
  {
    var s1 := Load(s, Some(g), p).0;
    CompletedLoadStores(s, g, p);
    NodesLoadAnywhere(s, s1, Some(g), p.nodes);
    var s1n := LoadNodes(s, Some(g), p.nodes).0;
    LoadEdgesInOrder(s1n, g, p.edges);
    var t := LoadNodes(s1, Some(g), p.nodes).0;
    forall k: NodeKey ensures (k in t.nodes <==> k in s1.nodes) && (k in t.nodes ==> t.nodes[k] == s1.nodes[k]) {
      LoadNodesLast(s1, g, p.nodes, k);
    }
    LoadNodesLast(s1, g, p.nodes, NodeKey(g, ""));
    assert t.nodes == s1.nodes;
    EdgesLoadAnywhere(s1n, t, Some(g), p.edges);
    LoadEdgesInOrder(t, g, p.edges);
    assert t.edges == s1.edges;
  }

  lemma {:induction false} NodesLoadAnywhere(s: Graphs, t: Graphs, g: Option<string>, es: seq<NodeEntry>)
    ensures LoadNodes(t, g, es).1 == LoadNodes(s, g, es).1
    decreases |es|
  {
    if es != [] && NodeLoads(g, es[0]) {
      NodesLoadAnywhere(PutNode(s, g, es[0]), PutNode(t, g, es[0]), g, es[1..]);
    }
  }

  lemma {:induction false} EdgesLoadAnywhere(s: Graphs, t: Graphs, g: Option<string>, es: seq<EdgeEntry>)
    requires s.nodes == t.nodes
    ensures LoadEdges(t, g, es).1 == LoadEdges(s, g, es).1
    decreases |es|
  {
    if es != [] && EdgeLoads(s, g, es[0]) {
      EdgesLoadAnywhere(AddEdge(s, g, es[0]), AddEdge(t, g, es[0]), g, es[1..]);
    }
  }
}
