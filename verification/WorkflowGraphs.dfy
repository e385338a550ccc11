/** The validated graph view of a workflow, with Kahn's topological sort. */
module WorkflowGraphs {
  import opened Collections
  import opened Digraphs
  import opened Sorting
  import opened Workflows
  import opened Worklists

  datatype OutgoingEdge = OutgoingEdge(
    sourcePort: Port, sourceIndex: int, target: NodeId, targetPort: Port, targetIndex: int)

  datatype IncomingEdge = IncomingEdge(
    source: NodeId, sourcePort: Port, sourceIndex: int, targetPort: Port, targetIndex: int)

  datatype GraphError =
    | DuplicateNode(id: NodeId)
    | UnknownSource(id: NodeId)
    | UnknownTarget(id: NodeId)
    | CycleDetected(offenders: seq<NodeId>)

  datatype Graph = Graph(
    workflow: Workflow,
    nodesById: map<NodeId, Node>,
    outgoing: map<NodeId, seq<OutgoingEdge>>,
    incoming: map<NodeId, seq<IncomingEdge>>,
    topo: seq<NodeId>,
    rootIds: seq<NodeId>)

  function Out(c: Connection): OutgoingEdge {
    OutgoingEdge(c.sourcePort, c.sourceIndex, c.targetNode, c.targetPort, c.targetIndex)
  }

  function In(c: Connection): IncomingEdge {
    IncomingEdge(c.sourceNode, c.sourcePort, c.sourceIndex, c.targetPort, c.targetIndex)
  }

  /** The connections that leave n, in declaration order. */
  ghost function OutgoingOf(cs: seq<Connection>, n: NodeId): seq<OutgoingEdge> {
    if cs == [] then []
    else OutgoingOf(Init(cs), n) + (if Last(cs).sourceNode == n then [Out(Last(cs))] else [])
  }

  /** The connections that enter n, in declaration order. */
  ghost function IncomingOf(cs: seq<Connection>, n: NodeId): seq<IncomingEdge> {
    if cs == [] then []
    else IncomingOf(Init(cs), n) + (if Last(cs).targetNode == n then [In(Last(cs))] else [])
  }

  function Bucket<K, V>(m: map<K, seq<V>>, k: K): seq<V> {
    if k in m then m[k] else []
  }

  ghost predicate LevelOrdered(g: Digraph, order: seq<NodeId>) {
    exists lv :: FullLevels(g, lv) && Sorted(lv, order)
  }

  /** Declaration order of the nodes. */
  ghost function NodeRank(ids: seq<NodeId>): (NodeId, NodeId) -> bool {
    (x, y) => Before(ids, x, y)
  }

  /** Kahn's sort takes roots and released children in declaration order. */
  ghost function KahnTies(ids: seq<NodeId>): Ties {
    Ties(NodeRank(ids), (p, x, y) => NodeRank(ids)(x, y))
  }

  /** What a constructed graph guarantees about its workflow. */
  ghost predicate GraphOf(g: Graph, w: Workflow) {
    && g.workflow == w
    && WellFormed(w)
    && g.nodesById.Keys == g.outgoing.Keys == g.incoming.Keys == Shape(w).Keys
    && (forall node | node in w.nodes :: node.id in g.nodesById && g.nodesById[node.id] == node)
    && (forall n | n in g.nodesById :: g.nodesById[n].id == n)
    && (forall n | n in g.outgoing :: g.outgoing[n] == OutgoingOf(w.connections, n))
    && (forall n | n in g.incoming :: g.incoming[n] == IncomingOf(w.connections, n))
    && Topological(Shape(w), g.topo)
    && LevelOrdered(Shape(w), g.topo)
    && Fifo(Shape(w), KahnTies(Ids(w.nodes)), g.topo)
    && Distinct(g.rootIds) && RankedList(NodeRank(Ids(w.nodes)), g.rootIds)
    && Elems(g.rootIds) == (set n | n in Shape(w) && Shape(w)[n] == {})
  }

  // ---- The two adjacency views mirror each other -------------------------------

  lemma {:induction false} IncomingSources(cs: seq<Connection>, n: NodeId)
    ensures (set e | e in IncomingOf(cs, n) :: e.source) == Sources(cs, n)
    ensures IncomingOf(cs, n) == [] <==> Sources(cs, n) == {}
  {
    if cs != [] {
      IncomingSources(Init(cs), n);
      var rest, c := IncomingOf(Init(cs), n), Last(cs);
      assert cs == Init(cs) + [c];
      assert Sources(cs, n) == Sources(Init(cs), n) + (if c.targetNode == n then {c.sourceNode} else {});
      if c.targetNode == n {
        assert IncomingOf(cs, n) == rest + [In(c)];
        assert In(c).source == c.sourceNode;
        assert (set e | e in rest + [In(c)] :: e.source) == (set e | e in rest :: e.source) + {c.sourceNode};
      } else {
        assert IncomingOf(cs, n) == rest;
      }
    }
  }

  lemma {:induction false} OutgoingTargets(cs: seq<Connection>, p: NodeId, n: NodeId)
    ensures (exists e :: e in OutgoingOf(cs, p) && e.target == n) <==> p in Sources(cs, n)
  {
    if cs != [] {
      OutgoingTargets(Init(cs), p, n);
      var rest, c := OutgoingOf(Init(cs), p), Last(cs);
      assert cs == Init(cs) + [c];
      assert Sources(cs, n) == Sources(Init(cs), n) + (if c.targetNode == n then {c.sourceNode} else {});
      if c.sourceNode == p {
        assert OutgoingOf(cs, p) == rest + [Out(c)];
        assert Out(c) in OutgoingOf(cs, p);
        assert forall e :: e in OutgoingOf(cs, p) <==> e in rest || e == Out(c);
      } else {
        assert OutgoingOf(cs, p) == rest;
      }
    }
  }

  // ---- Node index and adjacency ---------------------------------------------------

  /** index holds exactly the first k nodes, under their own ids. */
  ghost predicate Indexes(index: map<NodeId, Node>, nodes: seq<Node>, k: nat)
    requires k <= |nodes|
  {
    && index.Keys == Elems(Ids(nodes)[..k])
    && (forall i | 0 <= i < k :: nodes[i].id in index && index[nodes[i].id] == nodes[i])
    && (forall n | n in index :: index[n].id == n)
  }

  lemma IndexOne(index: map<NodeId, Node>, nodes: seq<Node>, k: nat)
    requires k < |nodes| && Indexes(index, nodes, k) && Distinct(Ids(nodes)[..k]) && nodes[k].id !in index
    ensures Indexes(index[nodes[k].id := nodes[k]], nodes, k + 1) && Distinct(Ids(nodes)[..k + 1])
  {
    IdsPush(nodes, k);
    assert forall i | 0 <= i < k :: nodes[i].id != nodes[k].id;
  }

  lemma IdsPush(nodes: seq<Node>, k: nat)
    requires k < |nodes|
    ensures Elems(Ids(nodes)[..k + 1]) == Elems(Ids(nodes)[..k]) + {nodes[k].id}
    ensures Distinct(Ids(nodes)[..k]) && nodes[k].id !in Elems(Ids(nodes)[..k]) ==> Distinct(Ids(nodes)[..k + 1])
  {
    TakeNext(Ids(nodes), k);
    ElemsPush(Ids(nodes)[..k], nodes[k].id);
    if Distinct(Ids(nodes)[..k]) && nodes[k].id !in Elems(Ids(nodes)[..k]) {
      DistinctPush(Ids(nodes)[..k], nodes[k].id);
    }
  }

  /** The first node whose id was already seen. */
  ghost predicate FirstRepeat(nodes: seq<Node>, k: nat) {
    k < |nodes| && Distinct(Ids(nodes)[..k]) && nodes[k].id in Ids(nodes)[..k]
  }

  lemma RepeatNotDistinct(nodes: seq<Node>, k: nat)
    requires FirstRepeat(nodes, k)
    ensures !Distinct(Ids(nodes))
  {
    var i :| 0 <= i < k && Ids(nodes)[..k][i] == nodes[k].id;
    assert Ids(nodes)[i] == Ids(nodes)[k];
  }

  method BuildNodeIndex(nodes: seq<Node>) returns (r: Result<map<NodeId, Node>, GraphError>)
    ensures r.Success? <==> Distinct(Ids(nodes))
    ensures r.Success? ==>
              && r.value.Keys == Elems(Ids(nodes))
              && (forall node | node in nodes :: node.id in r.value && r.value[node.id] == node)
              && (forall n | n in r.value :: r.value[n].id == n)
    ensures r.Failure? ==> exists k: nat :: FirstRepeat(nodes, k) && r.error == DuplicateNode(nodes[k].id)
  {
    var index: map<NodeId, Node> := map[];
    var i := 0;
    while i < |nodes|
      invariant 0 <= i <= |nodes|
      invariant Distinct(Ids(nodes)[..i])
      invariant Indexes(index, nodes, i)
    {
      if nodes[i].id in index {
        assert FirstRepeat(nodes, i);
        RepeatNotDistinct(nodes, i);
        return Failure(DuplicateNode(nodes[i].id));
      }
      IndexOne(index, nodes, i);
      index := index[nodes[i].id := nodes[i]];
      i := i + 1;
    }
    TakeAll(Ids(nodes), i);
    r := Success(index);
  }

  ghost predicate Known(c: Connection, index: map<NodeId, Node>) {
    c.sourceNode in index && c.targetNode in index
  }

  lemma OutgoingPush(cs: seq<Connection>, c: Connection, n: NodeId)
    ensures OutgoingOf(cs + [c], n) == if c.sourceNode == n then OutgoingOf(cs, n) + [Out(c)] else OutgoingOf(cs, n)
  {
    assert Init(cs + [c]) == cs;
  }

  lemma IncomingPush(cs: seq<Connection>, c: Connection, n: NodeId)
    ensures IncomingOf(cs + [c], n) == if c.targetNode == n then IncomingOf(cs, n) + [In(c)] else IncomingOf(cs, n)
  {
    assert Init(cs + [c]) == cs;
  }

  function AddTo<V>(m: map<NodeId, seq<V>>, n: NodeId, v: V): map<NodeId, seq<V>> {
    m[n := Bucket(m, n) + [v]]
  }

  /** The buckets after filing every connection under its source. */
  ghost function OutBuckets(cs: seq<Connection>): map<NodeId, seq<OutgoingEdge>> {
    if cs == [] then map[] else AddTo(OutBuckets(Init(cs)), Last(cs).sourceNode, Out(Last(cs)))
  }

  /** The buckets after filing every connection under its target. */
  ghost function InBuckets(cs: seq<Connection>): map<NodeId, seq<IncomingEdge>> {
    if cs == [] then map[] else AddTo(InBuckets(Init(cs)), Last(cs).targetNode, In(Last(cs)))
  }

  lemma BucketsPush(cs: seq<Connection>, i: nat)
    requires i < |cs|
    ensures OutBuckets(cs[..i + 1]) == AddTo(OutBuckets(cs[..i]), cs[i].sourceNode, Out(cs[i]))
    ensures InBuckets(cs[..i + 1]) == AddTo(InBuckets(cs[..i]), cs[i].targetNode, In(cs[i]))
  {
    assert Init(cs[..i + 1]) == cs[..i];
  }

  lemma {:induction false} OutBucketsHold(cs: seq<Connection>, n: NodeId)
    ensures Bucket(OutBuckets(cs), n) == OutgoingOf(cs, n)
  {
    if cs != [] { OutBucketsHold(Init(cs), n); }
  }

  lemma {:induction false} InBucketsHold(cs: seq<Connection>, n: NodeId)
    ensures Bucket(InBuckets(cs), n) == IncomingOf(cs, n)
  {
    if cs != [] { InBucketsHold(Init(cs), n); }
  }

  method ValidateConnection(c: Connection, index: map<NodeId, Node>) returns (fault: Option<GraphError>)
    ensures fault.None? <==> Known(c, index)
    ensures fault.Some? ==> fault.value == if c.sourceNode !in index then UnknownSource(c.sourceNode) else UnknownTarget(c.targetNode)
  {
    if c.sourceNode !in index {
      return Some(UnknownSource(c.sourceNode));
    }
    if c.targetNode !in index {
      return Some(UnknownTarget(c.targetNode));
    }
    fault := None;
  }

  /** The fault the first connection with an unknown end is reported under. */
  ghost predicate FirstUnknown(cs: seq<Connection>, index: map<NodeId, Node>, k: nat, e: GraphError) {
    && k < |cs| && !Known(cs[k], index)
    && (forall i | 0 <= i < k :: Known(cs[i], index))
    && e == if cs[k].sourceNode !in index then UnknownSource(cs[k].sourceNode) else UnknownTarget(cs[k].targetNode)
  }

  method BuildAdjacency(cs: seq<Connection>, index: map<NodeId, Node>)
    returns (r: Result<(map<NodeId, seq<OutgoingEdge>>, map<NodeId, seq<IncomingEdge>>), GraphError>)
    ensures r.Success? ==> forall i | 0 <= i < |cs| :: Known(cs[i], index)
    ensures r.Success? ==>
              && r.value.0.Keys == r.value.1.Keys == index.Keys
              && (forall n | n in index :: r.value.0[n] == OutgoingOf(cs, n))
              && (forall n | n in index :: r.value.1[n] == IncomingOf(cs, n))
    ensures r.Failure? ==> exists k: nat :: FirstUnknown(cs, index, k, r.error)
  {
    var out: map<NodeId, seq<OutgoingEdge>> := map[];
    var inn: map<NodeId, seq<IncomingEdge>> := map[];
    var i := 0;
    while i < |cs|
      invariant 0 <= i <= |cs|
      invariant forall k | 0 <= k < i :: Known(cs[k], index)
      invariant out == OutBuckets(cs[..i]) && inn == InBuckets(cs[..i])
    {
      var c := cs[i];
      var fault := ValidateConnection(c, index);
      if fault.Some? {
        assert FirstUnknown(cs, index, i, fault.value);
        return Failure(fault.value);
      }
      BucketsPush(cs, i);
      out := AddTo(out, c.sourceNode, Out(c));
      inn := AddTo(inn, c.targetNode, In(c));
      i := i + 1;
    }
    TakeAll(cs, i);
    forall n | n in index
      ensures Bucket(out, n) == OutgoingOf(cs, n) && Bucket(inn, n) == IncomingOf(cs, n)
    {
      OutBucketsHold(cs, n);
      InBucketsHold(cs, n);
    }
    r := Success((map n | n in index :: Bucket(out, n), map n | n in index :: Bucket(inn, n)));
  }

  // ---- Kahn's topological sort -------------------------------------------------------

  /** The parent relation read off the incoming edges. */
  function Parents(incoming: map<NodeId, seq<IncomingEdge>>): Digraph {
    map n | n in incoming :: set e | e in incoming[n] :: e.source
  }

  /** children lists, without repeats, the second halves of the pairs in seen. */
  ghost predicate Lists(children: map<NodeId, seq<NodeId>>, seen: set<(NodeId, NodeId)>) {
    && (forall p :: Distinct(Bucket(children, p)))
    && (forall p, n :: n in Bucket(children, p) <==> (p, n) in seen)
  }

  lemma PushChild(children: map<NodeId, seq<NodeId>>, seen: set<(NodeId, NodeId)>, p: NodeId, n: NodeId)
    requires Lists(children, seen) && (p, n) !in seen
    ensures Lists(children[p := Bucket(children, p) + [n]], seen + {(p, n)})
  {
    var children' := children[p := Bucket(children, p) + [n]];
    assert n !in Bucket(children, p);
    DistinctPush(Bucket(children, p), n);
    forall q
      ensures Distinct(Bucket(children', q))
      ensures forall m :: m in Bucket(children', q) <==> (q, m) in seen + {(p, n)}
    {
      assert q != p ==> Bucket(children', q) == Bucket(children, q);
      assert Distinct(Bucket(children, q));
    }
  }

  ghost predicate ChildrenRanked(ids: seq<NodeId>, children: map<NodeId, seq<NodeId>>) {
    forall p :: RankedList(NodeRank(ids), Bucket(children, p))
  }

  /** A child that comes after all listed ones keeps the lists in declaration order. */
  lemma PushRanked(ids: seq<NodeId>, children: map<NodeId, seq<NodeId>>, seen: set<(NodeId, NodeId)>, before: set<(NodeId, NodeId)>,
                   edges: seq<IncomingEdge>, incoming: map<NodeId, seq<IncomingEdge>>, i: nat, p: NodeId)
    requires i < |ids| && Lists(children, seen) && ChildrenRanked(ids, children)
    requires Pairs(before, ids[..i], incoming) && seen == before + EdgePairs(edges, ids[i]) && (p, ids[i]) !in seen
    ensures ChildrenRanked(ids, children[p := Bucket(children, p) + [ids[i]]])
  {
    var children' := children[p := Bucket(children, p) + [ids[i]]];
    forall x | x in Bucket(children, p)
      ensures Before(ids, x, ids[i])
    {
      assert (p, x) in seen && x != ids[i];
      assert (p, x) in before && x in ids[..i];
      var k :| 0 <= k < i && ids[..i][k] == x;
      assert ids[k] == x;
    }
    RankedPush(NodeRank(ids), Bucket(children, p), ids[i]);
    forall q
      ensures RankedList(NodeRank(ids), Bucket(children', q))
    {
      assert RankedList(NodeRank(ids), Bucket(children, q));
      assert q != p ==> Bucket(children', q) == Bucket(children, q);
    }
  }

  /** The pairs (parent, child) that the edges entering the first nodes declare. */
  ghost predicate Pairs(seen: set<(NodeId, NodeId)>, ids: seq<NodeId>, incoming: map<NodeId, seq<IncomingEdge>>) {
    forall p, n :: (p, n) in seen <==> n in ids && n in incoming && p in Parents(incoming)[n]
  }

  /** cs lists each child of p once. */
  ghost predicate ListsChildren(g: Digraph, p: NodeId, cs: seq<NodeId>) {
    Distinct(cs) && forall n :: n in cs <==> n in g && p in g[n]
  }

  /** Lists every child of every node once, however many connections join them. */
  method ChildrenByNode(ids: seq<NodeId>, incoming: map<NodeId, seq<IncomingEdge>>)
    returns (children: map<NodeId, seq<NodeId>>)
    requires Elems(ids) == incoming.Keys
    ensures forall p :: ListsChildren(Parents(incoming), p, Bucket(children, p))
    ensures ChildrenRanked(ids, children)
  {
    children := map[];
    var seen: set<(NodeId, NodeId)> := {};
    var i := 0;
    while i < |ids|
      invariant 0 <= i <= |ids|
      invariant Lists(children, seen) && ChildrenRanked(ids, children)
      invariant Pairs(seen, ids[..i], incoming)
    {
      var n := ids[i];
      assert n in Elems(ids);
      var edges := incoming[n];
      var k := 0;
      ghost var before := seen;
      while k < |edges|
        invariant 0 <= k <= |edges|
        invariant Lists(children, seen) && ChildrenRanked(ids, children)
        invariant seen == before + EdgePairs(edges[..k], n)
      {
        var key := (edges[k].source, n);
        EdgePairsPush(edges, k, n);
        if key !in seen {
          PushChild(children, seen, edges[k].source, n);
          PushRanked(ids, children, seen, before, edges[..k], incoming, i, edges[k].source);
          seen := seen + {key};
          children := children[edges[k].source := Bucket(children, edges[k].source) + [n]];
        }
        k := k + 1;
      }
      TakeAll(edges, k);
      MorePairs(before, seen, ids, incoming, i);
      i := i + 1;
    }
    TakeAll(ids, i);
    ListsAll(children, seen, ids, incoming);
  }

  lemma ListsAll(children: map<NodeId, seq<NodeId>>, seen: set<(NodeId, NodeId)>, ids: seq<NodeId>,
                 incoming: map<NodeId, seq<IncomingEdge>>)
    requires Elems(ids) == incoming.Keys && Lists(children, seen) && Pairs(seen, ids, incoming)
    ensures forall p :: ListsChildren(Parents(incoming), p, Bucket(children, p))
  {
    forall p
      ensures ListsChildren(Parents(incoming), p, Bucket(children, p))
    {
      assert forall n :: n in Bucket(children, p) <==> (p, n) in seen;
      assert forall n :: n in ids <==> n in Elems(ids);
    }
  }

  /** The (parent, child) pairs of edges entering n. */
  ghost function EdgePairs(edges: seq<IncomingEdge>, n: NodeId): set<(NodeId, NodeId)> {
    set e | e in edges :: (e.source, n)
  }

  lemma EdgePairsPush(edges: seq<IncomingEdge>, k: nat, n: NodeId)
    requires k < |edges|
    ensures EdgePairs(edges[..k + 1], n) == EdgePairs(edges[..k], n) + {(edges[k].source, n)}
  {
    TakeNext(edges, k);
  }

  lemma MorePairs(before: set<(NodeId, NodeId)>, after: set<(NodeId, NodeId)>, ids: seq<NodeId>,
                  incoming: map<NodeId, seq<IncomingEdge>>, i: nat)
    requires i < |ids| && ids[i] in incoming && Pairs(before, ids[..i], incoming)
    requires after == before + EdgePairs(incoming[ids[i]], ids[i])
    ensures Pairs(after, ids[..i + 1], incoming)
  {
    var edges := incoming[ids[i]];
    TakeNext(ids, i);
    forall p, n
      ensures (p, n) in after <==> n in ids[..i + 1] && n in incoming && p in Parents(incoming)[n]
    {
      if n == ids[i] && p in Parents(incoming)[n] {
        var e :| e in edges && e.source == p;
        assert (e.source, n) in EdgePairs(edges, n);
      }
    }
  }

  /** Each node's indegree counts the unique parents that are not done. */
  ghost predicate CountsParents(g: Digraph, indegree: map<NodeId, int>, done: set<NodeId>) {
    indegree.Keys == g.Keys && forall n | n in g :: indegree[n] == |g[n] - done|
  }

  /** Indegrees part way through a round: the children still listed count current. */
  ghost predicate Relaxing(g: Digraph, indegree: map<NodeId, int>, done: set<NodeId>, current: NodeId, left: seq<NodeId>) {
    && indegree.Keys == g.Keys
    && (forall n | n in g :: indegree[n] == |g[n] - (if n in left then done else done + {current})|)
  }

  /** Part way through a round: the first k children are relaxed and those at zero are released. */
  ghost predicate RelaxState(g: Digraph, done: seq<NodeId>, current: NodeId, children: seq<NodeId>, k: nat,
                             indegree: map<NodeId, int>, released: seq<NodeId>)
    requires k <= |children|
  {
    && Relaxing(g, indegree, Elems(done), current, children[k..])
    && Distinct(released)
    && released == Filter(children[..k], Released(g, done, current))
    && Elems(released) == Elems(children[..k]) * Released(g, done, current)
  }

  /** Takes current off the indegree of its children and queues those it brings to zero. */
  method Relax(ghost g: Digraph, ghost done: seq<NodeId>, current: NodeId, children: seq<NodeId>,
               indegree: map<NodeId, int>, queue: seq<NodeId>)
    returns (indegree': map<NodeId, int>, queue': seq<NodeId>, ghost released: seq<NodeId>)
    requires CountsParents(g, indegree, Elems(done)) && current !in done
    requires ListsChildren(g, current, children)
    ensures CountsParents(g, indegree', Elems(done) + {current})
    ensures queue' == queue + released
    ensures Distinct(released) && Elems(released) == Released(g, done, current)
    ensures released == Filter(children, Released(g, done, current))
  {
    indegree', queue', released := indegree, queue, [];
    RelaxStart(g, indegree, done, current, children);
    var k := 0;
    while k < |children|
      invariant 0 <= k <= |children|
      invariant RelaxState(g, done, current, children, k, indegree', released)
      invariant queue' == queue + released
    {
      var child := children[k];
      RelaxRound(g, done, current, children, k, indegree', released);
      indegree' := indegree'[child := indegree'[child] - 1];
      if indegree'[child] == 0 {
        queue', released := queue' + [child], released + [child];
      }
      k := k + 1;
    }
    RelaxEnd(g, done, current, children, indegree', released);
  }

  lemma RelaxRound(g: Digraph, done: seq<NodeId>, current: NodeId, children: seq<NodeId>, k: nat,
                   indegree: map<NodeId, int>, released: seq<NodeId>)
    requires ListsChildren(g, current, children) && current !in done && k < |children|
    requires RelaxState(g, done, current, children, k, indegree, released)
    ensures children[k] in indegree
    ensures
      var indegree' := indegree[children[k] := indegree[children[k]] - 1];
      RelaxState(g, done, current, children, k + 1, indegree',
                 if indegree'[children[k]] == 0 then released + [children[k]] else released)
  {
    assert children[k] in children;
    RelaxOne(g, done, current, children[k]);
    RelaxStep(g, indegree, done, current, children, k);
    ReleaseStep(children, k, released, Released(g, done, current));
  }

  lemma RelaxEnd(g: Digraph, done: seq<NodeId>, current: NodeId, children: seq<NodeId>,
                 indegree: map<NodeId, int>, released: seq<NodeId>)
    requires ListsChildren(g, current, children)
    requires RelaxState(g, done, current, children, |children|, indegree, released)
    ensures CountsParents(g, indegree, Elems(done) + {current})
    ensures Elems(released) == Released(g, done, current) && released == Filter(children, Released(g, done, current))
  {
    TakeAll(children, |children|);
    assert forall n | n in Released(g, done, current) :: n in Elems(children);
  }

  lemma ReleaseStep(children: seq<NodeId>, k: nat, released: seq<NodeId>, wanted: set<NodeId>)
    requires k < |children| && Distinct(children) && Distinct(released)
    requires released == Filter(children[..k], wanted) && Elems(released) == Elems(children[..k]) * wanted
    ensures children[k] in wanted ==>
              Distinct(released + [children[k]]) && released + [children[k]] == Filter(children[..k + 1], wanted) &&
              Elems(released + [children[k]]) == Elems(children[..k + 1]) * wanted
    ensures children[k] !in wanted ==>
              released == Filter(children[..k + 1], wanted) && Elems(released) == Elems(children[..k + 1]) * wanted
  {
    var child := children[k];
    TakeNext(children, k);
    assert Init(children[..k + 1]) == children[..k];
    ElemsPush(children[..k], child);
    assert child !in Elems(children[..k]);
    assert child !in Elems(released);
    DistinctPush(released, child);
    ElemsPush(released, child);
  }

  lemma RelaxStart(g: Digraph, indegree: map<NodeId, int>, done: seq<NodeId>, current: NodeId, children: seq<NodeId>)
    requires CountsParents(g, indegree, Elems(done)) && ListsChildren(g, current, children)
    ensures RelaxState(g, done, current, children, 0, indegree, [])
  {
    assert children[0..] == children;
    forall n | n in g
      ensures indegree[n] == |g[n] - (if n in children then Elems(done) else Elems(done) + {current})|
    {
      assert n !in children ==> g[n] - (Elems(done) + {current}) == g[n] - Elems(done);
    }
  }

  lemma RelaxStep(g: Digraph, indegree: map<NodeId, int>, done: seq<NodeId>, current: NodeId, children: seq<NodeId>, k: nat)
    requires k < |children| && Distinct(children) && children[k] in g
    requires Relaxing(g, indegree, Elems(done), current, children[k..])
    requires |g[children[k]] - Elems(done)| - 1 == |g[children[k]] - (Elems(done) + {current})|
    ensures indegree[children[k]] - 1 == |g[children[k]] - (Elems(done) + {current})|
    ensures Relaxing(g, indegree[children[k] := indegree[children[k]] - 1], Elems(done), current, children[k + 1..])
  {
    var child := children[k];
    assert children[k..] == [child] + children[k + 1..];
    assert child in children[k..] && child !in children[k + 1..];
    assert forall n | n != child :: n in children[k..] <==> n in children[k + 1..];
  }

  lemma RelaxOne(g: Digraph, done: seq<NodeId>, current: NodeId, child: NodeId)
    requires child in g && current in g[child] && current !in done
    ensures |g[child] - Elems(done)| - 1 == |g[child] - (Elems(done) + {current})|
    ensures child in Released(g, done, current) <==> |g[child] - (Elems(done) + {current})| == 0
  {
    assert g[child] - Elems(done) == (g[child] - (Elems(done) + {current})) + {current};
  }

  /** The nodes a level-tracking run of the sort has placed or queued. */
  ghost predicate KahnState(g: Digraph, lv: map<NodeId, nat>, order: seq<NodeId>, queue: seq<NodeId>) {
    && Worklist(g, order, queue)
    && Levelled(g, lv, order, queue)
    && lv.Keys == Elems(order + queue)
  }

  lemma KahnStart(g: Digraph, queue: seq<NodeId>)
    requires Closed(g) && Distinct(queue)
    requires Elems(queue) == set n | n in g && g[n] == {}
    ensures KahnState(g, map n | n in Elems(queue) :: 0, [], queue)
  {
    StartWorklist(g, queue);
    assert [] + queue == queue;
    StartLevels(g, queue);
  }

  /** Roots have level zero. */
  lemma StartLevels(g: Digraph, queue: seq<NodeId>)
    requires Elems(queue) == set n | n in g && g[n] == {}
    ensures Levelled(g, map n | n in Elems(queue) :: 0, [], queue)
  {
    assert [] + queue == queue;
    var lv: map<NodeId, nat> := map n | n in Elems(queue) :: 0;
    assert forall n | n in lv :: LevelAt(g, lv, n);
    assert forall i | 0 <= i < |queue| :: queue[i] in Elems(queue);
  }

  /** Levels extend to the nodes a round releases. */
  lemma KahnLevels(g: Digraph, lv: map<NodeId, nat>, order: seq<NodeId>, queue: seq<NodeId>)
    returns (lv': map<NodeId, nat>)
    requires Worklist(g, order, queue) && Levelled(g, lv, order, queue) && queue != []
    ensures IsLevels(g, lv') && lv'.Keys == lv.Keys + Released(g, order, queue[0])
    ensures forall n | n in lv :: lv'[n] == lv[n]
  {
    var current, released := queue[0], Released(g, order, queue[0]);
    assert current in lv;
    forall n, p | n in released && p in g[n]
      ensures p in lv && lv[p] <= lv[current]
    {
      ReleasedLevel(g, lv, order, queue, n);
    }
    lv' := RaiseLevels(lv, released, lv[current] + 1);
    RaisedLevels(g, lv, released, current);
  }

  lemma KahnStep(g: Digraph, lv: map<NodeId, nat>, order: seq<NodeId>, queue: seq<NodeId>, released: seq<NodeId>)
    returns (lv': map<NodeId, nat>)
    requires KahnState(g, lv, order, queue) && queue != []
    requires Distinct(released) && Elems(released) == Released(g, order, queue[0])
    ensures KahnState(g, lv', order + [queue[0]], queue[1..] + released)
  {
    lv' := KahnLevels(g, lv, order, queue);
    StepWorklist(g, order, queue, released);
    LevelledUnder(g, lv, lv', order, queue);
    StepLevelled(g, lv', order, queue, released);
    KahnKeys(order, queue, released);
  }

  ghost predicate KahnInv(g: Digraph, ids: seq<NodeId>, lv: map<NodeId, nat>, indegree: map<NodeId, int>,
                          order: seq<NodeId>, queue: seq<NodeId>) {
    && KahnState(g, lv, order, queue) && Fifo(g, KahnTies(ids), order + queue)
    && CountsParents(g, indegree, Elems(order)) && |order| + |queue| <= |ids|
  }

  lemma KahnRound(g: Digraph, lv: map<NodeId, nat>, ids: seq<NodeId>, indegree: map<NodeId, int>, order: seq<NodeId>,
                  queue: seq<NodeId>, children: seq<NodeId>, released: seq<NodeId>)
    returns (lv': map<NodeId, nat>)
    requires Distinct(ids) && Elems(ids) == g.Keys && KahnState(g, lv, order, queue) && queue != []
    requires Fifo(g, KahnTies(ids), order + queue) && RankedList(NodeRank(ids), children)
    requires CountsParents(g, indegree, Elems(order) + {queue[0]})
    requires Distinct(released) && Elems(released) == Released(g, order, queue[0])
    requires released == Filter(children, Released(g, order, queue[0]))
    ensures KahnInv(g, ids, lv', indegree, order + [queue[0]], queue[1..] + released)
  {
    lv' := KahnStep(g, lv, order, queue, released);
    ElemsPush(order, queue[0]);
    ReleasedRanked(g, ids, order, queue, children, released);
    PlacedAtMost(g, ids, order + [queue[0]], queue[1..] + released);
  }

  lemma KahnKeys(order: seq<NodeId>, queue: seq<NodeId>, released: seq<NodeId>)
    requires queue != []
    ensures Elems((order + [queue[0]]) + (queue[1..] + released)) == Elems(order + queue) + Elems(released)
  {
    assert (order + [queue[0]]) + (queue[1..] + released) == (order + queue) + released;
    ElemsAppend(order + queue, released);
  }

  lemma LevelledUnder(g: Digraph, lv: map<NodeId, nat>, lv': map<NodeId, nat>, order: seq<NodeId>, queue: seq<NodeId>)
    requires Levelled(g, lv, order, queue) && IsLevels(g, lv')
    requires forall n | n in lv :: n in lv' && lv'[n] == lv[n]
    ensures Levelled(g, lv', order, queue)
  {
    if order != [] { assert (order + queue)[|order| - 1] == Last(order); }
  }

  ghost predicate SortsOffenders(g: Digraph, offenders: seq<NodeId>) {
    && SortedBy(LexLeq, offenders) && Distinct(offenders)
    && (forall n :: n in offenders <==> n in g && BelowCycle(g, n))
  }

  /** The loop of the sort: takes the front of the queue and queues what it releases, until none is left. */
  method PlaceReleased(ghost g: Digraph, ids: seq<NodeId>, children: map<NodeId, seq<NodeId>>, indegree: map<NodeId, int>,
                       roots: seq<NodeId>)
    returns (indegree': map<NodeId, int>, order: seq<NodeId>, ghost lv: map<NodeId, nat>)
    requires Distinct(ids) && Elems(ids) == g.Keys && KahnInv(g, ids, map n | n in Elems(roots) :: 0, indegree, [], roots)
    requires (forall p :: ListsChildren(g, p, Bucket(children, p))) && ChildrenRanked(ids, children)
    ensures KahnInv(g, ids, lv, indegree', order, [])
  {
    var queue := roots;
    indegree', order, lv := indegree, [], map n | n in Elems(roots) :: 0;
    while queue != []
      invariant KahnInv(g, ids, lv, indegree', order, queue)
      decreases |ids| - |order|
    {
      var current := queue[0];
      FrontNotDone(g, order, queue);
      ghost var released: seq<NodeId>;
      ghost var was := queue;
      assert ListsChildren(g, current, Bucket(children, current)) && RankedList(NodeRank(ids), Bucket(children, current));
      indegree', queue, released := Relax(g, order, current, Bucket(children, current), indegree', queue[1..]);
      lv := KahnRound(g, lv, ids, indegree', order, was, Bucket(children, current), released);
      order := order + [current];
    }
  }

  /** Sorts the nodes level by level, or names exactly the nodes on or below a cycle. */
  method KahnSort(ids: seq<NodeId>, incoming: map<NodeId, seq<IncomingEdge>>)
    returns (r: Result<seq<NodeId>, GraphError>)
    requires Distinct(ids) && Elems(ids) == incoming.Keys && Closed(Parents(incoming))
    ensures r.Success? <==> Acyclic(Parents(incoming))
    ensures r.Success? ==> Topological(Parents(incoming), r.value) && LevelOrdered(Parents(incoming), r.value)
    ensures r.Success? ==> Fifo(Parents(incoming), KahnTies(ids), r.value)
    ensures r.Failure? ==> r.error.CycleDetected? && SortsOffenders(Parents(incoming), r.error.offenders)
  {
    ghost var g := Parents(incoming);
    var indegree: map<NodeId, int> := map n | n in incoming :: |set e | e in incoming[n] :: e.source|;
    var queue := Filter(ids, set n | n in incoming && indegree[n] == 0);
    var children := ChildrenByNode(ids, incoming);
    var order: seq<NodeId>;

    KahnInit(g, ids, indegree);
    ghost var lv: map<NodeId, nat>;
    indegree, order, lv := PlaceReleased(g, ids, children, indegree, queue);
    KahnOutcome(g, lv, ids, order);
    if |order| != |ids| {
      var offenders := Sort(LexLeq, Filter(ids, set n | n in incoming && indegree[n] > 0));
      Offenders(g, ids, indegree, order);
      return Failure(CycleDetected(offenders));
    }
    r := Success(order);
  }

  lemma QueueRanked(g: Digraph, ids: seq<NodeId>, indegree: map<NodeId, int>, queue: seq<NodeId>)
    requires Distinct(ids) && Elems(ids) == g.Keys && indegree.Keys == g.Keys && forall n | n in g :: indegree[n] == |g[n]|
    requires queue == Filter(ids, set n | n in g && indegree[n] == 0)
    ensures Fifo(g, KahnTies(ids), [] + queue)
  {
    var zero := set n | n in g && indegree[n] == 0;
    FilterElems(ids, zero);
    ZeroIndegree(g, ids, indegree);
    FilterRanked(NodeRank(ids), ids, zero);
    StartFifo(g, KahnTies(ids), queue);
  }

  /** What a round releases, in the order of the children lists, keeps the sort first in, first out. */
  lemma ReleasedRanked(g: Digraph, ids: seq<NodeId>, order: seq<NodeId>, queue: seq<NodeId>, children: seq<NodeId>, released: seq<NodeId>)
    requires Worklist(g, order, queue) && queue != [] && Fifo(g, KahnTies(ids), order + queue)
    requires RankedList(NodeRank(ids), children) && Distinct(released)
    requires Elems(released) == Released(g, order, queue[0]) && released == Filter(children, Released(g, order, queue[0]))
    ensures Fifo(g, KahnTies(ids), (order + [queue[0]]) + (queue[1..] + released))
  {
    FilterRanked(NodeRank(ids), children, Released(g, order, queue[0]));
    StepFifo(g, KahnTies(ids), order, queue, released);
  }

  lemma KahnInit(g: Digraph, ids: seq<NodeId>, indegree: map<NodeId, int>)
    requires Closed(g) && Distinct(ids) && Elems(ids) == g.Keys
    requires indegree.Keys == g.Keys && forall n | n in g :: indegree[n] == |g[n]|
    ensures
      var queue := Filter(ids, set n | n in g && indegree[n] == 0);
      KahnInv(g, ids, map n | n in Elems(queue) :: 0, indegree, [], queue)
  {
    var zero := set n | n in g && indegree[n] == 0;
    FilterElems(ids, zero);
    assert forall n | n in g :: g[n] - Elems<NodeId>([]) == g[n];
    ZeroIndegree(g, ids, indegree);
    KahnStart(g, Filter(ids, zero));
    QueueRanked(g, ids, indegree, Filter(ids, zero));
  }

  lemma ZeroIndegree(g: Digraph, ids: seq<NodeId>, indegree: map<NodeId, int>)
    requires Elems(ids) == g.Keys && indegree.Keys == g.Keys && forall n | n in g :: indegree[n] == |g[n]|
    ensures Elems(ids) * (set n | n in g && indegree[n] == 0) == set n | n in g && g[n] == {}
  {
  }

  lemma PlacedAtMost(g: Digraph, ids: seq<NodeId>, order: seq<NodeId>, queue: seq<NodeId>)
    requires Worklist(g, order, queue) && Elems(ids) == g.Keys && Distinct(ids)
    ensures |order| + |queue| <= |ids|
  {
    DistinctSize(order + queue);
    DistinctSize(ids);
    assert forall i | 0 <= i < |order| :: order[i] in g;
    SubsetSize(Elems(order + queue), Elems(ids));
  }

  lemma KahnOutcome(g: Digraph, lv: map<NodeId, nat>, ids: seq<NodeId>, order: seq<NodeId>)
    requires Distinct(ids) && Elems(ids) == g.Keys && KahnState(g, lv, order, []) && Fifo(g, KahnTies(ids), order + [])
    ensures |order| == |ids| <==> Acyclic(g)
    ensures |order| == |ids| ==> Topological(g, order) && LevelOrdered(g, order) && Fifo(g, KahnTies(ids), order)
  {
    assert order + [] == order;
    DrainedIffAcyclic(g, order);
    DistinctSize(order);
    DistinctSize(ids);
    assert forall i | 0 <= i < |order| :: order[i] in g;
    SubsetSize(Elems(order), g.Keys);
    if |order| == |ids| {
      assert FullLevels(g, lv) && Sorted(lv, order);
    }
  }

  /** The sorted leftovers are exactly the nodes on or below a cycle. */
  lemma Offenders(g: Digraph, ids: seq<NodeId>, indegree: map<NodeId, int>, order: seq<NodeId>)
    requires Distinct(ids) && Elems(ids) == g.Keys
    requires Worklist(g, order, []) && CountsParents(g, indegree, Elems(order))
    ensures SortsOffenders(g, Sort(LexLeq, Filter(ids, set n | n in g && indegree[n] > 0)))
  {
    var left := set n | n in g && indegree[n] > 0;
    var stuck := Filter(ids, left);
    FilterElems(ids, left);
    LexIsTotalOrder();
    SortSorts(LexLeq, stuck);
    SortPermutes(LexLeq, stuck);
    PermutedDistinct(stuck, Sort(LexLeq, stuck));
    forall n
      ensures n in Sort(LexLeq, stuck) <==> n in g && BelowCycle(g, n)
    {
      SameMembers(stuck, Sort(LexLeq, stuck), n);
      assert n in stuck <==> n in Elems(stuck);
      if n in g {
        StuckIffCounted(g, indegree, order, n);
      }
    }
  }

  lemma SameMembers<T>(a: seq<T>, b: seq<T>, x: T)
    requires multiset(a) == multiset(b)
    ensures x in a <==> x in b
  {
    assert x in a <==> x in multiset(a);
    assert x in b <==> x in multiset(b);
  }

  lemma StuckIffCounted(g: Digraph, indegree: map<NodeId, int>, order: seq<NodeId>, n: NodeId)
    requires Worklist(g, order, []) && CountsParents(g, indegree, Elems(order)) && n in g
    ensures indegree[n] > 0 <==> BelowCycle(g, n)
  {
    DrainedIffClear(g, order, n);
    DoneIffCounted(g, order, n);
  }

  lemma DoneIffCounted(g: Digraph, order: seq<NodeId>, n: NodeId)
    requires Worklist(g, order, []) && n in g
    ensures n in order <==> |g[n] - Elems(order)| == 0
  {
    assert order + [] == order;
    var missing := g[n] - Elems(order);
    if missing == {} {
      assert forall p | p in g[n] :: p !in missing;
    } else {
      var p :| p in missing;
    }
  }

  lemma PermutedDistinct<T>(a: seq<T>, b: seq<T>)
    requires Distinct(a) && multiset(a) == multiset(b)
    ensures Distinct(b)
  {
    forall i, j | 0 <= i < j < |b|
      ensures b[i] != b[j]
    {
      if b[i] == b[j] {
        assert b == b[..i] + [b[i]] + b[i + 1..j] + [b[j]] + b[j + 1..];
        assert multiset(b)[b[i]] >= 2;
        DistinctCount(a, b[i]);
        assert false;
      }
    }
  }

  lemma {:induction false} DistinctCount<T>(a: seq<T>, x: T)
    requires Distinct(a)
    ensures multiset(a)[x] <= 1
  {
    if a != [] {
      DistinctCount(Init(a), x);
      assert a == Init(a) + [Last(a)];
      assert Last(a) !in Init(a);
    }
  }

  // ---- The constructor ------------------------------------------------------------------

  /** Validates a workflow and builds its graph, or reports the first fault found. */
  method Build(w: Workflow) returns (r: Result<Graph, GraphError>)
    ensures r.Success? <==> WellFormed(w) && Acyclic(Shape(w))
    ensures r.Success? ==> GraphOf(r.value, w)
    ensures r.Failure? ==> (r.error.DuplicateNode? <==> !Distinct(Ids(w.nodes)))
    ensures r.Failure? ==> (r.error.CycleDetected? <==> WellFormed(w))
    ensures r.Failure? && r.error.CycleDetected? ==> SortsOffenders(Shape(w), r.error.offenders)
  {
    var index := BuildNodeIndex(w.nodes);
    if index.Failure? {
      return Failure(index.error);
    }
    var adjacency := BuildAdjacency(w.connections, index.value);
    if adjacency.Failure? {
      ghost var k: nat :| FirstUnknown(w.connections, index.value, k, adjacency.error);
      assert w.connections[k] in w.connections;
      return Failure(adjacency.error);
    }
    var (outgoing, incoming) := adjacency.value;
    IncomingIsShape(w, incoming);
    var topo := KahnSort(Ids(w.nodes), incoming);
    if topo.Failure? {
      return Failure(topo.error);
    }
    var rootIds := Filter(topo.value, set n | n in incoming && incoming[n] == []);
    RootsInOrder(Shape(w), Ids(w.nodes), topo.value, rootIds, set n | n in incoming && incoming[n] == []);
    r := Success(Graph(w, index.value, outgoing, incoming, topo.value, rootIds));
  }

  lemma RootsInOrder(g: Digraph, ids: seq<NodeId>, topo: seq<NodeId>, rootIds: seq<NodeId>, roots: set<NodeId>)
    requires Topological(g, topo) && Fifo(g, KahnTies(ids), topo) && rootIds == Filter(topo, roots)
    requires roots == set n | n in g && g[n] == {}
    ensures Distinct(rootIds) && Elems(rootIds) == roots && RankedList(NodeRank(ids), rootIds)
  {
    FilterElems(topo, roots);
    assert Elems(topo) * roots == roots;
    forall a, b | 0 <= a < b < |rootIds|
      ensures NodeRank(ids)(rootIds[a], rootIds[b])
    {
      assert rootIds[a] in Elems(rootIds) && rootIds[b] in Elems(rootIds);
      assert Before(rootIds, rootIds[a], rootIds[b]);
      FilterBefore(topo, roots, rootIds[a], rootIds[b]);
      var i, j :| 0 <= i < j < |topo| && topo[i] == rootIds[a] && topo[j] == rootIds[b];
      FifoDecides(g, KahnTies(ids), topo, i, j);
    }
  }

  lemma IncomingIsShape(w: Workflow, incoming: map<NodeId, seq<IncomingEdge>>)
    requires WellFormed(w) && incoming.Keys == Elems(Ids(w.nodes))
    requires forall n | n in incoming :: incoming[n] == IncomingOf(w.connections, n)
    ensures Parents(incoming) == Shape(w) && Closed(Shape(w))
    ensures (set n | n in incoming && incoming[n] == []) == (set n | n in Shape(w) && Shape(w)[n] == {})
  {
    ShapeClosed(w);
    forall n | n in incoming
      ensures Parents(incoming)[n] == Shape(w)[n] && (incoming[n] == [] <==> Shape(w)[n] == {})
    {
      IncomingSources(w.connections, n);
    }
  }
}
