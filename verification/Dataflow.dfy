/**
 What a workflow means: every node's run data is the outcome of the node on the
 items its parents route to it. A run is judged against these equations.
 */
module Dataflow {
  import opened Collections
  import opened Digraphs
  import opened Workflows
  import opened WorkflowGraphs
  import opened Worklists

  /** What a node implementation does with its inputs. */
  datatype Outcome = Output(items: seq<seq<Item>>) | Raised(message: string, code: string)

  datatype Status = Succeeded | Errored | Disabled

  datatype NodeRunData = NodeRunData(items: seq<seq<Item>>, status: Status, error: Option<NodeError>)

  type Inputs = map<Port, seq<Item>>

  type Implementation = (Node, Inputs) -> Outcome

  /** Recorded run data by node. */
  type Records = map<NodeId, NodeRunData>

  // ---- One node -------------------------------------------------------------------

  function Pinned(payloads: seq<Json>): seq<Item> {
    seq(|payloads|, i requires 0 <= i < |payloads| => Item(payloads[i], None))
  }

  /** Disabled nodes pass main through, pinned nodes replay their pins, failures become an item or an abort. */
  function NodeOutcome(w: Workflow, impl: Implementation, node: Node, inputs: Inputs): NodeRunData {
    if node.disabled then
      NodeRunData([Bucket(inputs, MAIN_PORT)], Disabled, None)
    else if node.id in w.pinData then
      NodeRunData([Pinned(w.pinData[node.id])], Succeeded, None)
    else
      match impl(node, inputs)
      case Output(items) => NodeRunData(items, Succeeded, None)
      case Raised(message, code) =>
        var error := NodeError(message, code);
        if node.continueOnFail then NodeRunData([[Item("{}", Some(error))]], Errored, None)
        else NodeRunData([], Errored, Some(error))
  }

  /** A failure that aborts the run. */
  predicate Fatal(node: Node, data: NodeRunData) {
    data.status.Errored? && !node.continueOnFail
  }

  // ---- Routing ----------------------------------------------------------------------

  function ItemsAt(outputs: seq<seq<Item>>, index: int): seq<Item> {
    if 0 <= index < |outputs| then outputs[index] else []
  }

  function OutputsOf(m: Records, n: NodeId): seq<seq<Item>> {
    if n in m then m[n].items else []
  }

  /** What the given edges of one node carry to port q of node n. */
  ghost function Routed(edges: seq<OutgoingEdge>, n: NodeId, q: Port, outputs: seq<seq<Item>>): seq<Item> {
    if edges == [] then []
    else
      var e := Last(edges);
      Routed(Init(edges), n, q, outputs) +
      (if e.target == n && e.targetPort == q then ItemsAt(outputs, e.sourceIndex) else [])
  }

  ghost function PortsInto(edges: seq<OutgoingEdge>, n: NodeId): set<Port> {
    set e | e in edges && e.target == n :: e.targetPort
  }

  /** Everything the nodes of order, in that order, route to port q of node n. */
  ghost function PortItems(cs: seq<Connection>, order: seq<NodeId>, n: NodeId, q: Port, m: Records): seq<Item> {
    if order == [] then []
    else
      PortItems(cs, Init(order), n, q, m) +
      Routed(OutgoingOf(cs, Last(order)), n, q, OutputsOf(m, Last(order)))
  }

  /** The ports of n that the nodes of order have an edge into. */
  ghost function FedPorts(cs: seq<Connection>, order: seq<NodeId>, n: NodeId): set<Port> {
    set p, e | p in order && e in OutgoingOf(cs, p) && e.target == n :: e.targetPort
  }

  /** The port map node n sees once the nodes of order have completed in that order. */
  ghost function InputsOf(w: Workflow, seeds: seq<Item>, order: seq<NodeId>, m: Records, n: NodeId): Inputs {
    if Sources(w.connections, n) == {} then map[MAIN_PORT := seeds]
    else map q | q in FedPorts(w.connections, order, n) :: PortItems(w.connections, order, n, q, m)
  }

  /** One workflow, its seed items and its node implementations. */
  datatype Setup = Setup(workflow: Workflow, seeds: seq<Item>, impl: Implementation)

  ghost predicate Ready(s: Setup) {
    WellFormed(s.workflow) && Acyclic(Shape(s.workflow))
  }

  ghost function Expected(s: Setup, order: seq<NodeId>, m: Records, n: NodeId): NodeRunData
    requires n in Shape(s.workflow)
  {
    var w := s.workflow;
    NodeOutcome(w, s.impl, NodeOf(w, n), InputsOf(w, s.seeds, order, m, n))
  }

  /**
   The dataflow equations: m records exactly the nodes of order, each with the
   outcome of the node on what its parents' records route to it.
   */
  ghost predicate Solves(s: Setup, order: seq<NodeId>, m: Records) {
    && m.Keys == Elems(order)
    && (forall n | n in m :: n in Shape(s.workflow) && m[n] == Expected(s, order, m, n))
  }

  // ---- Nodes that are not parents contribute nothing -----------------------------------

  lemma {:induction false} RoutedNothing(edges: seq<OutgoingEdge>, n: NodeId, q: Port, outputs: seq<seq<Item>>)
    requires forall e | e in edges :: e.target != n || e.targetPort != q
    ensures Routed(edges, n, q, outputs) == []
  {
    if edges != [] {
      assert Last(edges) in edges;
      RoutedNothing(Init(edges), n, q, outputs);
    }
  }

  lemma NotParentNoEdge(w: Workflow, p: NodeId, n: NodeId)
    requires p !in Sources(w.connections, n)
    ensures forall e | e in OutgoingOf(w.connections, p) :: e.target != n
  {
    OutgoingTargets(w.connections, p, n);
  }

  lemma {:induction false} PortItemsAgree(cs: seq<Connection>, order: seq<NodeId>, n: NodeId, q: Port, a: Records, b: Records)
    requires forall p | p in order && p in Sources(cs, n) :: OutputsOf(a, p) == OutputsOf(b, p)
    ensures PortItems(cs, order, n, q, a) == PortItems(cs, order, n, q, b)
  {
    if order != [] {
      var p := Last(order);
      assert p in order;
      PortItemsAgree(cs, Init(order), n, q, a, b);
      if p !in Sources(cs, n) {
        OutgoingTargets(cs, p, n);
        RoutedNothing(OutgoingOf(cs, p), n, q, OutputsOf(a, p));
        RoutedNothing(OutgoingOf(cs, p), n, q, OutputsOf(b, p));
      }
    }
  }

  lemma PortItemsPush(cs: seq<Connection>, order: seq<NodeId>, p: NodeId, n: NodeId, q: Port, m: Records)
    ensures PortItems(cs, order + [p], n, q, m) ==
            PortItems(cs, order, n, q, m) + Routed(OutgoingOf(cs, p), n, q, OutputsOf(m, p))
  {
    assert Init(order + [p]) == order;
  }

  lemma FedPortsUnmoved(cs: seq<Connection>, order: seq<NodeId>, p: NodeId, n: NodeId)
    requires forall e | e in OutgoingOf(cs, p) :: e.target != n
    ensures FedPorts(cs, order + [p], n) == FedPorts(cs, order, n)
  {
    assert forall x :: x in order + [p] <==> x in order || x == p;
  }

  /** Completing a node that is not a parent of n leaves n's inputs alone. */
  lemma InputsUnmoved(w: Workflow, seeds: seq<Item>, order: seq<NodeId>, m: Records, m': Records, p: NodeId, n: NodeId)
    requires p !in Sources(w.connections, n)
    requires forall x | x in order :: OutputsOf(m, x) == OutputsOf(m', x)
    ensures InputsOf(w, seeds, order + [p], m', n) == InputsOf(w, seeds, order, m, n)
  {
    var cs := w.connections;
    NotParentNoEdge(w, p, n);
    FedPortsUnmoved(cs, order, p, n);
    forall q | q in FedPorts(cs, order, n)
      ensures PortItems(cs, order + [p], n, q, m') == PortItems(cs, order, n, q, m)
    {
      PortItemsUnmoved(cs, order, m, m', p, n, q);
    }
  }

  lemma PortItemsUnmoved(cs: seq<Connection>, order: seq<NodeId>, m: Records, m': Records, p: NodeId, n: NodeId, q: Port)
    requires forall e | e in OutgoingOf(cs, p) :: e.target != n
    requires forall x | x in order :: OutputsOf(m, x) == OutputsOf(m', x)
    ensures PortItems(cs, order + [p], n, q, m') == PortItems(cs, order, n, q, m)
  {
    PortItemsPush(cs, order, p, n, q, m');
    RoutedNothing(OutgoingOf(cs, p), n, q, OutputsOf(m', p));
    PortItemsAgree(cs, order, n, q, m, m');
  }

  // ---- Running one more ready node keeps the equations solved ---------------------------

  lemma SolvesPush(s: Setup, order: seq<NodeId>, m: Records, n: NodeId)
    requires Legal(Shape(s.workflow), order + [n]) && n in Shape(s.workflow)
    requires Solves(s, order, m)
    ensures Solves(s, order + [n], m[n := Expected(s, order, m, n)])
  {
    var m' := m[n := Expected(s, order, m, n)];
    ElemsPush(order, n);
    forall x | x in m'
      ensures x in Shape(s.workflow) && m'[x] == Expected(s, order + [n], m', x)
    {
      assert x in Elems(order + [n]);
      LastFeedsNone(Shape(s.workflow), order, n, x);
      SameOutputs(order, m, n, m'[n]);
      InputsUnmoved(s.workflow, s.seeds, order, m, m', n, x);
    }
  }

  lemma SameOutputs(order: seq<NodeId>, m: Records, n: NodeId, data: NodeRunData)
    requires n !in order
    ensures forall x | x in order :: OutputsOf(m, x) == OutputsOf(m[n := data], x)
  {
  }

  // ---- The equations have one solution ----------------------------------------------------

  /** The parents of n with an edge into port q. */
  ghost function Feeders(cs: seq<Connection>, n: NodeId, q: Port): set<NodeId> {
    set c | c in cs && c.targetNode == n && c.targetPort == q :: c.sourceNode
  }

  lemma {:induction false} NotFeeder(cs: seq<Connection>, p: NodeId, n: NodeId, q: Port)
    requires p !in Feeders(cs, n, q)
    ensures forall e | e in OutgoingOf(cs, p) :: e.target != n || e.targetPort != q
  {
    if cs != [] {
      assert cs == Init(cs) + [Last(cs)];
      NotFeeder(Init(cs), p, n, q);
    }
  }

  /** Only the feeders of a port matter to what it receives. */
  lemma {:induction false} PortItemsFiltered(cs: seq<Connection>, order: seq<NodeId>, n: NodeId, q: Port, m: Records)
    ensures PortItems(cs, order, n, q, m) == PortItems(cs, Filter(order, Feeders(cs, n, q)), n, q, m)
  {
    if order != [] {
      var p, feeders := Last(order), Feeders(cs, n, q);
      PortItemsFiltered(cs, Init(order), n, q, m);
      if p in feeders {
        PortItemsPush(cs, Filter(Init(order), feeders), p, n, q, m);
      } else {
        NotFeeder(cs, p, n, q);
        RoutedNothing(OutgoingOf(cs, p), n, q, OutputsOf(m, p));
        assert Filter(order, feeders) == Filter(Init(order), feeders);
      }
    }
  }

  lemma FedByParents(w: Workflow, a: seq<NodeId>, b: seq<NodeId>, n: NodeId)
    requires Sources(w.connections, n) <= Elems(a) && Sources(w.connections, n) <= Elems(b)
    ensures FedPorts(w.connections, a, n) == FedPorts(w.connections, b, n)
  {
    var cs := w.connections;
    forall p, e | e in OutgoingOf(cs, p) && e.target == n
      ensures p in Elems(a) && p in Elems(b)
    {
      OutgoingTargets(cs, p, n);
    }
  }

  /** Two completion orders list the feeders of every port in the same order. */
  ghost predicate SameFanIn(cs: seq<Connection>, a: seq<NodeId>, b: seq<NodeId>) {
    forall n, q | n in a && n in b :: Filter(a, Feeders(cs, n, q)) == Filter(b, Feeders(cs, n, q))
  }

  lemma SameInputs(w: Workflow, seeds: seq<Item>, a: seq<NodeId>, b: seq<NodeId>, ma: Records, mb: Records, n: NodeId)
    requires Sources(w.connections, n) <= Elems(a) && Sources(w.connections, n) <= Elems(b)
    requires forall p | p in Sources(w.connections, n) :: OutputsOf(ma, p) == OutputsOf(mb, p)
    requires forall q :: Filter(a, Feeders(w.connections, n, q)) == Filter(b, Feeders(w.connections, n, q))
    ensures InputsOf(w, seeds, a, ma, n) == InputsOf(w, seeds, b, mb, n)
  {
    var cs := w.connections;
    FedByParents(w, a, b, n);
    forall q | q in FedPorts(cs, a, n)
      ensures PortItems(cs, a, n, q, ma) == PortItems(cs, b, n, q, mb)
    {
      PortItemsFiltered(cs, a, n, q, ma);
      PortItemsFiltered(cs, b, n, q, mb);
      PortItemsAgree(cs, Filter(a, Feeders(cs, n, q)), n, q, ma, mb);
    }
  }

  lemma {:induction false} SolutionsAgreeAt(s: Setup, lv: map<NodeId, nat>, a: seq<NodeId>, b: seq<NodeId>,
                                            ma: Records, mb: Records, n: NodeId)
    requires Ready(s) && FullLevels(Shape(s.workflow), lv)
    requires Legal(Shape(s.workflow), a) && Legal(Shape(s.workflow), b)
    requires Solves(s, a, ma) && Solves(s, b, mb)
    requires SameFanIn(s.workflow.connections, a, b)
    requires n in a && n in b
    ensures n in ma && n in mb && ma[n] == mb[n]
    decreases lv[n]
  {
    var w := s.workflow;
    assert n in Elems(a) && n in Elems(b);
    ParentsInside(Shape(w), a, n);
    ParentsInside(Shape(w), b, n);
    assert LevelAt(Shape(w), lv, n);
    forall p | p in Sources(w.connections, n)
      ensures OutputsOf(ma, p) == OutputsOf(mb, p)
    {
      assert p in Elems(a) && p in Elems(b);
      SolutionsAgreeAt(s, lv, a, b, ma, mb, p);
    }
    SameInputs(w, s.seeds, a, b, ma, mb, n);
  }

  /**
   Determinacy: whatever legal order the ready nodes are taken in, runs that list
   the feeders of each port alike record the same data.
   */
  lemma Determinacy(s: Setup, a: seq<NodeId>, b: seq<NodeId>, ma: Records, mb: Records)
    requires Ready(s)
    requires Legal(Shape(s.workflow), a) && Legal(Shape(s.workflow), b)
    requires Solves(s, a, ma) && Solves(s, b, mb)
    requires SameFanIn(s.workflow.connections, a, b)
    ensures forall n | n in ma && n in mb :: ma[n] == mb[n]
  {
    ShapeClosed(s.workflow);
    var lv := AcyclicHasLevels(Shape(s.workflow));
    forall n | n in ma && n in mb
      ensures ma[n] == mb[n]
    {
      assert n in Elems(a) && n in Elems(b);
      SolutionsAgreeAt(s, lv, a, b, ma, mb, n);
    }
  }

  lemma MapsEqual<K, V>(a: map<K, V>, b: map<K, V>)
    requires a.Keys == b.Keys && forall k | k in a && k in b :: a[k] == b[k]
    ensures a == b
  {
  }

  // ---- The recursive meaning -------------------------------------------------------------------

  /** The meaning of a node: its outcome on what the meanings of its parents route to it. */
  ghost function Meaning(s: Setup, lv: map<NodeId, nat>, order: seq<NodeId>, n: NodeId): NodeRunData
    requires FullLevels(Shape(s.workflow), lv) && n in Shape(s.workflow)
    decreases lv[n]
  {
    var w := s.workflow;
    assert LevelAt(Shape(w), lv, n);
    var parents := map p | p in Shape(w)[n] :: Meaning(s, lv, order, p);
    NodeOutcome(w, s.impl, NodeOf(w, n), InputsOf(w, s.seeds, order, parents, n))
  }

  lemma InputsFromParents(w: Workflow, seeds: seq<Item>, order: seq<NodeId>, a: Records, b: Records, n: NodeId)
    requires forall p | p in Sources(w.connections, n) :: OutputsOf(a, p) == OutputsOf(b, p)
    ensures InputsOf(w, seeds, order, a, n) == InputsOf(w, seeds, order, b, n)
  {
    forall q | q in FedPorts(w.connections, order, n)
      ensures PortItems(w.connections, order, n, q, a) == PortItems(w.connections, order, n, q, b)
    {
      PortItemsAgree(w.connections, order, n, q, a, b);
    }
  }

  /** Whatever solves the equations along an order records the meaning of every node. */
  lemma {:induction false} SolutionIsMeaning(s: Setup, lv: map<NodeId, nat>, order: seq<NodeId>, m: Records, n: NodeId)
    requires FullLevels(Shape(s.workflow), lv) && Legal(Shape(s.workflow), order) && Solves(s, order, m) && n in order
    ensures n in m && n in Shape(s.workflow) && m[n] == Meaning(s, lv, order, n)
    decreases if n in lv then lv[n] else 0
  {
    var w := s.workflow;
    assert n in Elems(order);
    ParentsInside(Shape(w), order, n);
    assert LevelAt(Shape(w), lv, n);
    var parents := map p | p in Shape(w)[n] :: Meaning(s, lv, order, p);
    forall p | p in Sources(w.connections, n)
      ensures OutputsOf(m, p) == OutputsOf(parents, p)
    {
      assert p in Elems(order);
      SolutionIsMeaning(s, lv, order, m, p);
    }
    InputsFromParents(w, s.seeds, order, m, parents, n);
  }

  // ---- Every legal order has a run -----------------------------------------------------------

  /** Running the nodes of a legal order one after the other. */
  ghost function Replay(s: Setup, order: seq<NodeId>): Records
    requires forall n | n in order :: n in Shape(s.workflow)
  {
    if order == [] then map[]
    else
      var m := Replay(s, Init(order));
      m[Last(order) := Expected(s, Init(order), m, Last(order))]
  }

  lemma {:induction false} ReplaySolves(s: Setup, order: seq<NodeId>)
    requires Ready(s) && Legal(Shape(s.workflow), order)
    requires forall n | n in order :: n in Shape(s.workflow)
    ensures Solves(s, order, Replay(s, order))
  {
    if order != [] {
      InitLast(order);
      LegalPrefix(Shape(s.workflow), order, |order| - 1);
      ReplaySolves(s, Init(order));
      SolvesPush(s, Init(order), Replay(s, Init(order)), Last(order));
    }
  }

  // ---- Conservation of items -----------------------------------------------------------------

  /** The items that the incoming connections of a node bring to port q. */
  ghost function IncomingTotal(edges: seq<IncomingEdge>, q: Port, m: Records): multiset<Item> {
    if edges == [] then multiset{}
    else
      var e := Last(edges);
      var outs := OutputsOf(m, e.source);
      IncomingTotal(Init(edges), q, m) +
      (if e.targetPort == q && 0 <= e.sourceIndex < |outs| then multiset(outs[e.sourceIndex]) else multiset{})
  }

  ghost function Carried(c: Connection, n: NodeId, q: Port, m: Records): multiset<Item> {
    var outs := OutputsOf(m, c.sourceNode);
    if c.targetNode == n && c.targetPort == q && 0 <= c.sourceIndex < |outs| then multiset(outs[c.sourceIndex]) else multiset{}
  }

  lemma RoutedOneMore(cs: seq<Connection>, c: Connection, p: NodeId, n: NodeId, q: Port, m: Records)
    ensures multiset(Routed(OutgoingOf(cs + [c], p), n, q, OutputsOf(m, p))) ==
            multiset(Routed(OutgoingOf(cs, p), n, q, OutputsOf(m, p))) +
            (if c.sourceNode == p then Carried(c, n, q, m) else multiset{})
  {
    OutgoingPush(cs, c, p);
    if c.sourceNode == p {
      assert Init(OutgoingOf(cs, p) + [Out(c)]) == OutgoingOf(cs, p);
    }
  }

  /** One more connection delivers its items once, when its source completes. */
  lemma {:induction false} OneMoreConnection(cs: seq<Connection>, c: Connection, order: seq<NodeId>, n: NodeId, q: Port, m: Records)
    requires Distinct(order)
    ensures multiset(PortItems(cs + [c], order, n, q, m)) ==
            multiset(PortItems(cs, order, n, q, m)) + (if c.sourceNode in order then Carried(c, n, q, m) else multiset{})
  {
    if order != [] {
      var p := Last(order);
      OneMoreConnection(cs, c, Init(order), n, q, m);
      InitLast(order);
      RoutedOneMore(cs, c, p, n, q, m);
      PortItemsCount(cs, order, n, q, m);
      PortItemsCount(cs + [c], order, n, q, m);
    }
  }

  lemma PortItemsCount(cs: seq<Connection>, order: seq<NodeId>, n: NodeId, q: Port, m: Records)
    requires order != []
    ensures multiset(PortItems(cs, order, n, q, m)) ==
            multiset(PortItems(cs, Init(order), n, q, m)) +
            multiset(Routed(OutgoingOf(cs, Last(order)), n, q, OutputsOf(m, Last(order))))
  {
  }

  lemma {:induction false} IncomingTotalPush(cs: seq<Connection>, c: Connection, n: NodeId, q: Port, m: Records)
    ensures IncomingTotal(IncomingOf(cs + [c], n), q, m) == IncomingTotal(IncomingOf(cs, n), q, m) + Carried(c, n, q, m)
  {
    IncomingPush(cs, c, n);
    if c.targetNode == n {
      IncomingTotalOne(IncomingOf(cs, n), In(c), q, m);
    }
  }

  lemma IncomingTotalOne(edges: seq<IncomingEdge>, e: IncomingEdge, q: Port, m: Records)
    ensures
      var outs := OutputsOf(m, e.source);
      IncomingTotal(edges + [e], q, m) ==
      IncomingTotal(edges, q, m) +
      (if e.targetPort == q && 0 <= e.sourceIndex < |outs| then multiset(outs[e.sourceIndex]) else multiset{})
  {
    assert Init(edges + [e]) == edges;
  }

  lemma {:induction false} Conserved(cs: seq<Connection>, order: seq<NodeId>, n: NodeId, q: Port, m: Records)
    requires Distinct(order) && Sources(cs, n) <= Elems(order)
    ensures multiset(PortItems(cs, order, n, q, m)) == IncomingTotal(IncomingOf(cs, n), q, m)
  {
    if cs == [] {
      NothingRouted(order, n, q, m);
    } else {
      var c := Last(cs);
      assert cs == Init(cs) + [c];
      Conserved(Init(cs), order, n, q, m);
      OneMoreConnection(Init(cs), c, order, n, q, m);
      IncomingTotalPush(Init(cs), c, n, q, m);
      if c.targetNode == n { assert c.sourceNode in Elems(order); }
    }
  }

  /** A repeated connection is as legal as the first, and delivers its items again. */
  lemma RepeatedConnection(w: Workflow, c: Connection, n: NodeId, q: Port, m: Records)
    requires c in w.connections
    ensures
      var more := w.(connections := w.connections + [c]);
      && Shape(more) == Shape(w) && (WellFormed(more) <==> WellFormed(w))
      && IncomingTotal(IncomingOf(more.connections, n), q, m) ==
         IncomingTotal(IncomingOf(w.connections, n), q, m) + Carried(c, n, q, m)
  {
    var more := w.(connections := w.connections + [c]);
    assert forall d :: d in more.connections <==> d in w.connections;
    forall x | x in Shape(w)
      ensures Sources(more.connections, x) == Sources(w.connections, x)
    {
    }
    IncomingTotalPush(w.connections, c, n, q, m);
  }

  lemma {:induction false} NothingRouted(order: seq<NodeId>, n: NodeId, q: Port, m: Records)
    ensures PortItems([], order, n, q, m) == []
  {
    if order != [] { NothingRouted(Init(order), n, q, m); }
  }

  /**
   Conservation: a node that is not a root sees on each port exactly the items of
   its incoming connections, each connection counted once; a root sees the seeds.
   */
  lemma InputsConserve(s: Setup, order: seq<NodeId>, m: Records, n: NodeId)
    requires Ready(s) && Legal(Shape(s.workflow), order) && n in Shape(s.workflow)
    requires Shape(s.workflow)[n] <= Elems(order)
    ensures
      var inputs := InputsOf(s.workflow, s.seeds, order, m, n);
      if IncomingOf(s.workflow.connections, n) == [] then inputs == map[MAIN_PORT := s.seeds]
      else forall q :: multiset(Bucket(inputs, q)) == IncomingTotal(IncomingOf(s.workflow.connections, n), q, m)
  {
    var w := s.workflow;
    IncomingSources(w.connections, n);
    if IncomingOf(s.workflow.connections, n) != [] {
      forall q
        ensures multiset(Bucket(InputsOf(w, s.seeds, order, m, n), q)) == IncomingTotal(IncomingOf(s.workflow.connections, n), q, m)
      {
        Conserved(w.connections, order, n, q, m);
        if q !in FedPorts(w.connections, order, n) {
          UnfedPort(w.connections, order, n, q, m);
        }
      }
    }
  }

  lemma {:induction false} UnfedPort(cs: seq<Connection>, order: seq<NodeId>, n: NodeId, q: Port, m: Records)
    requires q !in FedPorts(cs, order, n)
    ensures PortItems(cs, order, n, q, m) == []
  {
    if order != [] {
      var p := Last(order);
      assert p in order && forall x | x in Init(order) :: x in order;
      assert forall e | e in OutgoingOf(cs, p) && e.target == n :: e.targetPort in FedPorts(cs, order, n);
      RoutedNothing(OutgoingOf(cs, p), n, q, OutputsOf(m, p));
      UnfedPort(cs, Init(order), n, q, m);
    }
  }
}
