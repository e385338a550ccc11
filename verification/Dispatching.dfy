/** The dictionaries the run loop mutates: gathered inputs, pending parents and the ready queue. */
module Dispatching {
  import opened Collections
  import opened Digraphs
  import opened Workflows
  import opened WorkflowGraphs
  import opened Worklists
  import opened Dataflow

  // ---- Delivering items ---------------------------------------------------------------

  function NodeInputs(inputs: map<NodeId, Inputs>, n: NodeId): Inputs {
    if n in inputs then inputs[n] else map[]
  }

  /** Appends items to one port of a bucket. */
  function Extend(bucket: Inputs, q: Port, items: seq<Item>): Inputs {
    bucket[q := Bucket(bucket, q) + items]
  }

  /** The inputs after the given edges of one node have delivered its outputs. */
  ghost function Delivered(inputs: map<NodeId, Inputs>, edges: seq<OutgoingEdge>, outputs: seq<seq<Item>>): map<NodeId, Inputs> {
    if edges == [] then inputs
    else
      var before, e := Delivered(inputs, Init(edges), outputs), Last(edges);
      before[e.target := Extend(NodeInputs(before, e.target), e.targetPort, ItemsAt(outputs, e.sourceIndex))]
  }

  /** Only fed ports appear in the bucket of n. */
  lemma {:induction false} DeliveredKeys(inputs: map<NodeId, Inputs>, edges: seq<OutgoingEdge>, outputs: seq<seq<Item>>, n: NodeId)
    ensures NodeInputs(Delivered(inputs, edges, outputs), n).Keys == NodeInputs(inputs, n).Keys + PortsInto(edges, n)
  {
    if edges != [] {
      DeliveredKeys(inputs, Init(edges), outputs, n);
      InitLast(edges);
      PortsIntoPush(Init(edges), Last(edges), n);
    }
  }

  /** Each port of n grows by exactly what the edges route to it. */
  lemma {:induction false} DeliveredItems(inputs: map<NodeId, Inputs>, edges: seq<OutgoingEdge>, outputs: seq<seq<Item>>,
                                          n: NodeId, q: Port)
    ensures Bucket(NodeInputs(Delivered(inputs, edges, outputs), n), q) ==
            Bucket(NodeInputs(inputs, n), q) + Routed(edges, n, q, outputs)
  {
    if edges != [] {
      DeliveredItems(inputs, Init(edges), outputs, n, q);
    }
  }

  lemma PortsIntoPush(edges: seq<OutgoingEdge>, e: OutgoingEdge, n: NodeId)
    ensures PortsInto(edges + [e], n) == PortsInto(edges, n) + if e.target == n then {e.targetPort} else {}
  {
  }

  // ---- Advancing readiness ----------------------------------------------------------------

  datatype Readiness = Readiness(pending: map<NodeId, set<NodeId>>, queue: seq<NodeId>)

  /** What one outgoing edge of a finished node does to its target. */
  function Advance(r: Readiness, target: NodeId, finished: NodeId): Readiness {
    if target !in r.pending || r.pending[target] == {} then r
    else
      var remaining := r.pending[target] - {finished};
      Readiness(r.pending[target := remaining], if remaining == {} then r.queue + [target] else r.queue)
  }

  ghost function Advanced(r: Readiness, edges: seq<OutgoingEdge>, finished: NodeId): Readiness {
    if edges == [] then r else Advance(Advanced(r, Init(edges), finished), Last(edges).target, finished)
  }

  ghost function Targets(edges: seq<OutgoingEdge>): set<NodeId> {
    set e | e in edges :: e.target
  }

  /** Pending holds, for every node, the parents that are not done. */
  ghost predicate PendingParents(g: Digraph, pending: map<NodeId, set<NodeId>>, done: set<NodeId>) {
    pending.Keys == g.Keys && forall n | n in g :: pending[n] == g[n] - done
  }

  /** Part way through a round: the nodes already targeted no longer wait for the finished one. */
  ghost predicate Advancing(g: Digraph, pending: map<NodeId, set<NodeId>>, done: set<NodeId>, finished: NodeId, hit: set<NodeId>) {
    && pending.Keys == g.Keys
    && (forall n | n in g :: pending[n] == g[n] - (if n in hit then done + {finished} else done))
  }

  ghost predicate Queued(queue: seq<NodeId>, before: seq<NodeId>, released: seq<NodeId>, wanted: set<NodeId>) {
    queue == before + released && Distinct(released) && Elems(released) == wanted
  }

  /** The first edge into x comes before any edge into y. */
  ghost predicate EdgeBefore(edges: seq<OutgoingEdge>, x: NodeId, y: NodeId) {
    exists j :: 0 <= j < |edges| && edges[j].target == x && forall m | 0 <= m <= j :: edges[m].target != y
  }

  ghost function EdgeRank(edges: seq<OutgoingEdge>): (NodeId, NodeId) -> bool {
    (x, y) => EdgeBefore(edges, x, y)
  }

  lemma EdgeBeforeMore(edges: seq<OutgoingEdge>, e: OutgoingEdge, x: NodeId, y: NodeId)
    requires EdgeBefore(edges, x, y)
    ensures EdgeBefore(edges + [e], x, y)
  {
    var more := edges + [e];
    var j :| 0 <= j < |edges| && edges[j].target == x && forall m | 0 <= m <= j :: edges[m].target != y;
    assert more[j].target == x && forall m | 0 <= m <= j :: more[m] == edges[m];
  }

  lemma TargetsFirst(edges: seq<OutgoingEdge>, x: NodeId, y: NodeId)
    requires x in Targets(edges) && y !in Targets(edges)
    ensures EdgeBefore(edges, x, y)
  {
    var d :| d in edges && d.target == x;
    var j :| 0 <= j < |edges| && edges[j] == d;
    assert forall m | 0 <= m <= j :: edges[m].target in Targets(edges);
  }

  /** Releasing at the first edge into a node ranks the released nodes by those edges. */
  lemma RankedMore(edges: seq<OutgoingEdge>, e: OutgoingEdge, released: seq<NodeId>, released': seq<NodeId>)
    requires RankedList(EdgeRank(edges), released) && Elems(released) <= Targets(edges)
    requires released' == released || (released' == released + [e.target] && e.target !in Targets(edges))
    ensures RankedList(EdgeRank(edges + [e]), released')
  {
    forall a, b | 0 <= a < b < |released'|
      ensures EdgeRank(edges + [e])(released'[a], released'[b])
    {
      assert released[a] in Elems(released);
      if b < |released| {
        assert EdgeRank(edges)(released[a], released[b]);
      } else {
        TargetsFirst(edges, released'[a], released'[b]);
      }
      EdgeBeforeMore(edges, e, released'[a], released'[b]);
    }
  }

  lemma AdvanceOne(g: Digraph, r: Readiness, before: seq<NodeId>, released: seq<NodeId>, done: seq<NodeId>,
                   finished: NodeId, hit: set<NodeId>, target: NodeId)
    returns (released': seq<NodeId>)
    requires target in g && finished in g[target] && finished !in done
    requires Advancing(g, r.pending, Elems(done), finished, hit)
    requires Queued(r.queue, before, released, hit * Released(g, done, finished))
    ensures
      var r' := Advance(r, target, finished);
      && Advancing(g, r'.pending, Elems(done), finished, hit + {target})
      && Queued(r'.queue, before, released', (hit + {target}) * Released(g, done, finished))
    ensures released' == released || (released' == released + [target] && target !in hit)
  {
    released' := released;
    if target in hit {
      assert hit + {target} == hit;
      assert r.pending[target] - {finished} == r.pending[target];
    } else {
      assert finished in r.pending[target];
      assert r.pending[target] - {finished} == g[target] - (Elems(done) + {finished});
      if target in Released(g, done, finished) {
        assert r.pending[target] - {finished} == {};
        released' := released + [target];
        assert target !in Elems(released);
        DistinctPush(released, target);
        ElemsPush(released, target);
      } else {
        var p :| p in g[target] && p !in Elems(done) + {finished};
        assert p in r.pending[target] - {finished};
      }
    }
  }

  lemma {:induction false} AdvanceAll(g: Digraph, r: Readiness, edges: seq<OutgoingEdge>, done: seq<NodeId>, finished: NodeId)
    returns (released: seq<NodeId>)
    requires PendingParents(g, r.pending, Elems(done)) && finished !in done
    requires forall e | e in edges :: e.target in g && finished in g[e.target]
    ensures
      var r' := Advanced(r, edges, finished);
      && Advancing(g, r'.pending, Elems(done), finished, Targets(edges))
      && Queued(r'.queue, r.queue, released, Targets(edges) * Released(g, done, finished))
    ensures RankedList(EdgeRank(edges), released)
  {
    if edges == [] {
      released := [];
    } else {
      var before := AdvanceAll(g, r, Init(edges), done, finished);
      assert Last(edges) in edges;
      released := AdvanceOne(g, Advanced(r, Init(edges), finished), r.queue, before, done, finished,
                             Targets(Init(edges)), Last(edges).target);
      InitLast(edges);
      RankedMore(Init(edges), Last(edges), before, released);
      TargetsPush(Init(edges), Last(edges));
    }
  }

  lemma TargetsPush(edges: seq<OutgoingEdge>, e: OutgoingEdge)
    ensures Targets(edges + [e]) == Targets(edges) + {e.target}
  {
  }

  ghost predicate Joins(c: Connection, p: NodeId, x: NodeId) {
    c.sourceNode == p && c.targetNode == x
  }

  /** The first connection from p to x is declared before any from p to y. */
  ghost predicate WireBefore(cs: seq<Connection>, p: NodeId, x: NodeId, y: NodeId) {
    exists j :: 0 <= j < |cs| && Joins(cs[j], p, x) && forall m | 0 <= m <= j :: !Joins(cs[m], p, y)
  }

  ghost function WireRank(cs: seq<Connection>, p: NodeId): (NodeId, NodeId) -> bool {
    (x, y) => WireBefore(cs, p, x, y)
  }

  /** The run takes roots in declaration order and released nodes by the connection that first reaches them. */
  ghost function RunTies(w: Workflow): Ties {
    Ties(NodeRank(Ids(w.nodes)), (p, x, y) => WireBefore(w.connections, p, x, y))
  }

  lemma RunTiesAsymmetric(w: Workflow)
    requires WellFormed(w)
    ensures Asymmetric(RunTies(w))
  {
    forall x, y
      ensures !(Before(Ids(w.nodes), x, y) && Before(Ids(w.nodes), y, x))
    {
      if Before(Ids(w.nodes), x, y) { NotBothWays(Ids(w.nodes), x, y); }
    }
    forall p, x, y
      ensures !(WireBefore(w.connections, p, x, y) && WireBefore(w.connections, p, y, x))
    {
    }
  }

  lemma WireBeforeMore(cs: seq<Connection>, c: Connection, p: NodeId, x: NodeId, y: NodeId)
    requires WireBefore(cs, p, x, y)
    ensures WireBefore(cs + [c], p, x, y)
  {
    var more := cs + [c];
    var k :| 0 <= k < |cs| && Joins(cs[k], p, x) && forall m | 0 <= m <= k :: !Joins(cs[m], p, y);
    assert Joins(more[k], p, x) && forall m | 0 <= m <= k :: more[m] == cs[m];
  }

  lemma LastWireBefore(cs: seq<Connection>, c: Connection, p: NodeId, x: NodeId, y: NodeId)
    requires Joins(c, p, x) && x != y && forall m | 0 <= m < |cs| :: !Joins(cs[m], p, y)
    ensures WireBefore(cs + [c], p, x, y)
  {
    var more := cs + [c];
    assert Joins(more[|cs|], p, x) && forall m | 0 <= m < |cs| :: more[m] == cs[m];
  }

  lemma EdgeBeforeLess(edges: seq<OutgoingEdge>, e: OutgoingEdge, x: NodeId, y: NodeId)
    requires EdgeBefore(edges + [e], x, y)
    ensures EdgeBefore(edges, x, y) || (e.target == x && x != y && y !in Targets(edges))
  {
    var more := edges + [e];
    var j :| 0 <= j < |more| && more[j].target == x && forall m | 0 <= m <= j :: more[m].target != y;
    assert forall m | 0 <= m < |edges| :: more[m] == edges[m];
  }

  lemma {:induction false} EdgeBeforeIsWireBefore(cs: seq<Connection>, p: NodeId, x: NodeId, y: NodeId)
    requires EdgeBefore(OutgoingOf(cs, p), x, y)
    ensures WireBefore(cs, p, x, y)
  {
    var before, c := OutgoingOf(Init(cs), p), Last(cs);
    InitLast(cs);
    if c.sourceNode == p {
      EdgeBeforeLess(before, Out(c), x, y);
    } else {
      assert OutgoingOf(cs, p) == before;
    }
    if EdgeBefore(before, x, y) {
      EdgeBeforeIsWireBefore(Init(cs), p, x, y);
      WireBeforeMore(Init(cs), c, p, x, y);
    } else {
      NoEdgeNoWire(Init(cs), p, y, before);
      LastWireBefore(Init(cs), c, p, x, y);
    }
  }

  lemma NoEdgeNoWire(cs: seq<Connection>, p: NodeId, y: NodeId, edges: seq<OutgoingEdge>)
    requires edges == OutgoingOf(cs, p) && y !in Targets(edges)
    ensures forall m | 0 <= m < |cs| :: !Joins(cs[m], p, y)
  {
    OutgoingTargets(cs, p, y);
    assert p !in Sources(cs, y);
  }

  lemma EdgeRanksAreWireRanks(cs: seq<Connection>, p: NodeId, released: seq<NodeId>)
    requires RankedList(EdgeRank(OutgoingOf(cs, p)), released)
    ensures RankedList(WireRank(cs, p), released)
  {
    forall a, b | 0 <= a < b < |released|
      ensures WireBefore(cs, p, released[a], released[b])
    {
      assert EdgeRank(OutgoingOf(cs, p))(released[a], released[b]);
      EdgeBeforeIsWireBefore(cs, p, released[a], released[b]);
    }
  }

  /** After all its outgoing edges, pending drops the finished node and the queue gains what it released. */
  lemma AdvanceReleases(w: Workflow, r: Readiness, done: seq<NodeId>, finished: NodeId)
    returns (released: seq<NodeId>)
    requires WellFormed(w) && PendingParents(Shape(w), r.pending, Elems(done)) && finished !in done
    ensures
      var r' := Advanced(r, OutgoingOf(w.connections, finished), finished);
      && PendingParents(Shape(w), r'.pending, Elems(done) + {finished})
      && Queued(r'.queue, r.queue, released, Released(Shape(w), done, finished))
    ensures RankedList(WireRank(w.connections, finished), released)
  {
    var g, edges := Shape(w), OutgoingOf(w.connections, finished);
    EdgesHitChildren(w, finished);
    released := AdvanceAll(g, r, edges, done, finished);
    AllReleasedHit(g, edges, done, finished);
    EdgeRanksAreWireRanks(w.connections, finished, released);
    AdvancedPending(g, Advanced(r, edges, finished).pending, edges, done, finished);
  }

  lemma AllReleasedHit(g: Digraph, edges: seq<OutgoingEdge>, done: seq<NodeId>, finished: NodeId)
    requires forall n :: n in Targets(edges) <==> n in g && finished in g[n]
    ensures Targets(edges) * Released(g, done, finished) == Released(g, done, finished)
  {
  }

  lemma AdvancedPending(g: Digraph, pending: map<NodeId, set<NodeId>>, edges: seq<OutgoingEdge>, done: seq<NodeId>, finished: NodeId)
    requires Advancing(g, pending, Elems(done), finished, Targets(edges))
    requires forall n :: n in Targets(edges) <==> n in g && finished in g[n]
    ensures PendingParents(g, pending, Elems(done) + {finished})
  {
    forall n | n in g
      ensures pending[n] == g[n] - (Elems(done) + {finished})
    {
      assert n !in Targets(edges) ==> g[n] - (Elems(done) + {finished}) == g[n] - Elems(done);
    }
  }

  /** The targets of a node's outgoing edges are exactly its children. */
  lemma EdgesHitChildren(w: Workflow, p: NodeId)
    requires WellFormed(w)
    ensures forall n :: n in Targets(OutgoingOf(w.connections, p)) <==> n in Shape(w) && p in Shape(w)[n]
    ensures forall e | e in OutgoingOf(w.connections, p) :: e.target in Shape(w) && p in Shape(w)[e.target]
  {
    var edges := OutgoingOf(w.connections, p);
    forall n
      ensures n in Targets(edges) <==> n in Shape(w) && p in Shape(w)[n]
    {
      OutgoingTargets(w.connections, p, n);
      assert n in Targets(edges) <==> exists e :: e in edges && e.target == n;
      if p in Sources(w.connections, n) {
        var c :| c in w.connections && c.targetNode == n && c.sourceNode == p;
        assert n in Ids(w.nodes);
      }
    }
    forall e | e in edges
      ensures e.target in Shape(w) && p in Shape(w)[e.target]
    {
      assert e.target in Targets(edges);
    }
  }

  // ---- The mutable dictionaries ----------------------------------------------------------------

  class Dispatch {
    const graph: Graph
    var inputsByNode: map<NodeId, Inputs>
    var pending: map<NodeId, set<NodeId>>
    var readyQueue: seq<NodeId>

    constructor (graph: Graph, seeds: seq<Item>)
      ensures this.graph == graph
      ensures inputsByNode == map n | n in graph.rootIds :: map[MAIN_PORT := seeds]
      ensures pending == Parents(graph.incoming)
      ensures readyQueue == graph.rootIds
    {
      this.graph := graph;
      pending := Parents(graph.incoming);
      readyQueue := graph.rootIds;
      inputsByNode := map[];
      new;
      var i := 0;
      while i < |graph.rootIds|
        invariant 0 <= i <= |graph.rootIds|
        invariant pending == Parents(graph.incoming) && readyQueue == graph.rootIds
        invariant inputsByNode == map n | n in graph.rootIds[..i] :: map[MAIN_PORT := seeds]
      {
        TakeNext(graph.rootIds, i);
        inputsByNode := inputsByNode[graph.rootIds[i] := map[MAIN_PORT := seeds]];
        i := i + 1;
      }
    }

    ghost function Waiting(): Readiness
      reads this
    {
      Readiness(pending, readyQueue)
    }

    method PropagateOutputs(source: NodeId, outputs: seq<seq<Item>>)
      requires source in graph.outgoing
      modifies this`inputsByNode
      ensures inputsByNode == Delivered(old(inputsByNode), graph.outgoing[source], outputs)
    {
      var edges := graph.outgoing[source];
      var i := 0;
      while i < |edges|
        invariant 0 <= i <= |edges|
        invariant inputsByNode == Delivered(old(inputsByNode), edges[..i], outputs)
      {
        var e := edges[i];
        assert Init(edges[..i + 1]) == edges[..i];
        var bucket := NodeInputs(inputsByNode, e.target);
        inputsByNode := inputsByNode[e.target := Extend(bucket, e.targetPort, ItemsAt(outputs, e.sourceIndex))];
        i := i + 1;
      }
      TakeAll(edges, i);
    }

    method AdvanceReadiness(finished: NodeId)
      requires finished in graph.outgoing
      modifies this`pending, this`readyQueue
      ensures Waiting() == Advanced(old(Waiting()), graph.outgoing[finished], finished)
    {
      var edges := graph.outgoing[finished];
      var i := 0;
      while i < |edges|
        invariant 0 <= i <= |edges|
        invariant Waiting() == Advanced(old(Waiting()), edges[..i], finished)
      {
        var target := edges[i].target;
        assert Init(edges[..i + 1]) == edges[..i];
        if target in pending && pending[target] != {} {
          pending := pending[target := pending[target] - {finished}];
          if pending[target] == {} {
            readyQueue := readyQueue + [target];
          }
        }
        i := i + 1;
      }
      TakeAll(edges, i);
    }
  }
}
