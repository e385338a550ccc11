/** The run loop, proved against the dataflow equations. */
module Executor {
  import opened Collections
  import opened Digraphs
  import opened Workflows
  import opened WorkflowGraphs
  import opened Worklists
  import opened Dataflow
  import opened Dispatching
  import opened Runtime

  // ---- What a finished execution guarantees --------------------------------------------

  ghost function RecordsOf(e: Execution): Records {
    map n | n in e.perNode && e.perNode[n] != [] :: Last(e.perNode[n])
  }

  ghost predicate FatalAt(s: Setup, m: Records, n: NodeId) {
    n in Shape(s.workflow) && n in m && Fatal(NodeOf(s.workflow, n), m[n])
  }

  /** The run stopped at a node that failed without continue-on-fail. */
  ghost predicate Aborted(s: Setup, e: Execution) {
    e.order != [] && FatalAt(s, RecordsOf(e), Last(e.order))
  }

  /** The one order in which a run that is not stopped records all nodes. */
  ghost predicate RunOrder(w: Workflow, order: seq<NodeId>) {
    Topological(Shape(w), order) && Fifo(Shape(w), RunTies(w), order)
  }

  ghost predicate StartsRunOrder(w: Workflow, order: seq<NodeId>) {
    exists full :: RunOrder(w, full) && order <= full
  }

  /**
   Every recorded node ran exactly once, after all its parents, level by level, on
   the items they routed to it; the run is complete or stopped at its only fatal node.
   */
  ghost predicate Faithful(s: Setup, e: Execution) {
    && e.workflow == s.workflow
    && Legal(Shape(s.workflow), e.order)
    && LevelOrdered(Shape(s.workflow), e.order)
    && e.perNode.Keys == Elems(e.order)
    && (forall n | n in e.perNode :: |e.perNode[n]| == 1)
    && Solves(s, e.order, RecordsOf(e))
    && (forall i | 0 <= i < |e.order| - 1 :: !FatalAt(s, RecordsOf(e), e.order[i]))
    && (Aborted(s, e) || Topological(Shape(s.workflow), e.order))
    && (e.status.ExecutionErrored? <==> Aborted(s, e) && Last(e.order) != "")
  }

  // ---- The state of the loop ----------------------------------------------------------------

  /** Every node that has not run sees exactly what the recorded nodes route to it. */
  ghost predicate InputsReady(s: Setup, inputs: map<NodeId, Inputs>, order: seq<NodeId>, m: Records) {
    forall n | n in Shape(s.workflow) && n !in order ::
      NodeInputs(inputs, n) == InputsOf(s.workflow, s.seeds, order, m, n)
  }

  ghost predicate NoFatal(s: Setup, order: seq<NodeId>, m: Records) {
    forall n | n in order :: !FatalAt(s, m, n)
  }

  ghost predicate Scheduled(g: Digraph, lv: map<NodeId, nat>, order: seq<NodeId>, r: Readiness) {
    && Worklist(g, order, r.queue)
    && Levelled(g, lv, order, r.queue)
    && PendingParents(g, r.pending, Elems(order))
  }

  ghost predicate Live(s: Setup, order: seq<NodeId>, m: Records, inputs: map<NodeId, Inputs>) {
    InputsReady(s, inputs, order, m) && Solves(s, order, m) && NoFatal(s, order, m)
  }

  ghost predicate Dead(s: Setup, lv: map<NodeId, nat>, order: seq<NodeId>, m: Records, failed: NodeId) {
    && Legal(Shape(s.workflow), order) && Sorted(lv, order) && Solves(s, order, m)
    && order != [] && failed == Last(order) && FatalAt(s, m, failed) && NoFatal(s, Init(order), m)
  }

  // ---- Items ----------------------------------------------------------------------------------

  lemma SameBucket(a: Inputs, b: Inputs)
    requires a.Keys == b.Keys && forall q | q in a :: Bucket(a, q) == Bucket(b, q)
    ensures a == b
  {
    assert forall q | q in a :: a[q] == b[q];
  }

  lemma FedPortsPush(cs: seq<Connection>, order: seq<NodeId>, p: NodeId, n: NodeId)
    ensures FedPorts(cs, order + [p], n) == FedPorts(cs, order, n) + PortsInto(OutgoingOf(cs, p), n)
  {
    assert forall x :: x in order + [p] <==> x in order || x == p;
    assert p in order + [p];
  }

  /** Delivering a node's outputs brings every other node's inputs up to date. */
  lemma DeliverOne(s: Setup, inputs: map<NodeId, Inputs>, order: seq<NodeId>, m: Records, p: NodeId, data: NodeRunData, n: NodeId)
    requires NodeInputs(inputs, n) == InputsOf(s.workflow, s.seeds, order, m, n)
    requires p !in order
    ensures NodeInputs(Delivered(inputs, OutgoingOf(s.workflow.connections, p), data.items), n) ==
            InputsOf(s.workflow, s.seeds, order + [p], m[p := data], n)
  {
    if p in Sources(s.workflow.connections, n) {
      DeliverToChild(s, inputs, order, m, p, data, n);
    } else {
      DeliverToOther(s, inputs, order, m, p, data, n);
    }
  }

  lemma DeliverToOther(s: Setup, inputs: map<NodeId, Inputs>, order: seq<NodeId>, m: Records, p: NodeId, data: NodeRunData, n: NodeId)
    requires NodeInputs(inputs, n) == InputsOf(s.workflow, s.seeds, order, m, n)
    requires p !in order && p !in Sources(s.workflow.connections, n)
    ensures NodeInputs(Delivered(inputs, OutgoingOf(s.workflow.connections, p), data.items), n) ==
            InputsOf(s.workflow, s.seeds, order + [p], m[p := data], n)
  {
    var edges := OutgoingOf(s.workflow.connections, p);
    var after := NodeInputs(Delivered(inputs, edges, data.items), n);
    DeliveredKeys(inputs, edges, data.items, n);
    NotParentNoEdge(s.workflow, p, n);
    SameOutputs(order, m, p, data);
    InputsUnmoved(s.workflow, s.seeds, order, m, m[p := data], p, n);
    forall q | q in after
      ensures Bucket(after, q) == Bucket(NodeInputs(inputs, n), q)
    {
      DeliveredItems(inputs, edges, data.items, n, q);
      RoutedNothing(edges, n, q, data.items);
    }
    assert PortsInto(edges, n) == {};
    SameBucket(after, NodeInputs(inputs, n));
  }

  lemma DeliverToChild(s: Setup, inputs: map<NodeId, Inputs>, order: seq<NodeId>, m: Records, p: NodeId, data: NodeRunData, n: NodeId)
    requires NodeInputs(inputs, n) == InputsOf(s.workflow, s.seeds, order, m, n)
    requires p !in order && p in Sources(s.workflow.connections, n)
    ensures NodeInputs(Delivered(inputs, OutgoingOf(s.workflow.connections, p), data.items), n) ==
            InputsOf(s.workflow, s.seeds, order + [p], m[p := data], n)
  {
    var cs := s.workflow.connections;
    var edges, m' := OutgoingOf(cs, p), m[p := data];
    var after := NodeInputs(Delivered(inputs, edges, data.items), n);
    var wanted := InputsOf(s.workflow, s.seeds, order + [p], m', n);
    DeliveredKeys(inputs, edges, data.items, n);
    FedPortsPush(cs, order, p, n);
    SameOutputs(order, m, p, data);
    forall q | q in after
      ensures Bucket(after, q) == Bucket(wanted, q)
    {
      DeliveredItems(inputs, edges, data.items, n, q);
      PortItemsPush(cs, order, p, n, q, m');
      PortItemsAgree(cs, order, n, q, m, m');
      if q !in FedPorts(cs, order, n) {
        UnfedPort(cs, order, n, q, m);
      }
    }
    SameBucket(after, wanted);
  }

  lemma DeliverStep(s: Setup, inputs: map<NodeId, Inputs>, order: seq<NodeId>, m: Records, p: NodeId, data: NodeRunData)
    requires InputsReady(s, inputs, order, m) && p !in order
    ensures InputsReady(s, Delivered(inputs, OutgoingOf(s.workflow.connections, p), data.items), order + [p], m[p := data])
  {
    forall n | n in Shape(s.workflow) && n !in order + [p]
      ensures NodeInputs(Delivered(inputs, OutgoingOf(s.workflow.connections, p), data.items), n) ==
              InputsOf(s.workflow, s.seeds, order + [p], m[p := data], n)
    {
      DeliverOne(s, inputs, order, m, p, data, n);
    }
  }

  // ---- Rounds -----------------------------------------------------------------------------------

  lemma NextIsLegal(g: Digraph, lv: map<NodeId, nat>, order: seq<NodeId>, r: Readiness)
    requires Scheduled(g, lv, order, r) && r.queue != []
    ensures r.queue[0] in g && r.queue[0] !in order
    ensures Legal(g, order + [r.queue[0]]) && Sorted(lv, order + [r.queue[0]])
  {
    FrontNotDone(g, order, r.queue);
    FrontIsReady(g, order, r.queue);
    LegalPush(g, order, r.queue[0]);
    SortedPrefix(lv, order, r.queue);
  }

  lemma SortedPrefix(lv: map<NodeId, nat>, order: seq<NodeId>, queue: seq<NodeId>)
    requires Sorted(lv, order + queue) && queue != []
    ensures Sorted(lv, order + [queue[0]])
  {
    assert forall i | 0 <= i <= |order| :: (order + [queue[0]])[i] == (order + queue)[i];
  }

  /** Finishing the front of the queue keeps the schedule invariant, in FIFO and level order. */
  lemma ScheduleStep(w: Workflow, lv: map<NodeId, nat>, order: seq<NodeId>, r: Readiness)
    requires WellFormed(w) && FullLevels(Shape(w), lv)
    requires Scheduled(Shape(w), lv, order, r) && r.queue != []
    ensures Scheduled(Shape(w), lv, order + [r.queue[0]],
                      Advanced(Readiness(r.pending, r.queue[1..]), OutgoingOf(w.connections, r.queue[0]), r.queue[0]))
  {
    var n := r.queue[0];
    FrontNotDone(Shape(w), order, r.queue);
    var released := AdvanceReleases(w, Readiness(r.pending, r.queue[1..]), order, n);
    StepWorklist(Shape(w), order, r.queue, released);
    ReleasedInside(Shape(w), order, n, released);
    StepLevelled(Shape(w), lv, order, r.queue, released);
    ElemsPush(order, n);
  }

  /** Finishing the front of the queue keeps it first in, first out. */
  lemma FifoStep(w: Workflow, order: seq<NodeId>, r: Readiness)
    requires WellFormed(w) && Worklist(Shape(w), order, r.queue) && PendingParents(Shape(w), r.pending, Elems(order))
    requires r.queue != [] && Fifo(Shape(w), RunTies(w), order + r.queue)
    ensures
      var n := r.queue[0];
      Fifo(Shape(w), RunTies(w), (order + [n]) + Advanced(Readiness(r.pending, r.queue[1..]), OutgoingOf(w.connections, n), n).queue)
  {
    var n := r.queue[0];
    FrontNotDone(Shape(w), order, r.queue);
    var released := AdvanceReleases(w, Readiness(r.pending, r.queue[1..]), order, n);
    TiesRank(w, n, released);
    StepFifo(Shape(w), RunTies(w), order, r.queue, released);
  }

  lemma TiesRank(w: Workflow, n: NodeId, released: seq<NodeId>)
    requires RankedList(WireRank(w.connections, n), released)
    ensures RankedList((x, y) => RunTies(w).tie(n, x, y), released)
  {
    forall a, b | 0 <= a < b < |released|
      ensures RunTies(w).tie(n, released[a], released[b])
    {
      assert WireRank(w.connections, n)(released[a], released[b]);
    }
  }

  /** Whatever the data, the schedule can be drained to the end. */
  lemma {:induction false} DrainRun(w: Workflow, lv: map<NodeId, nat>, order: seq<NodeId>, r: Readiness) returns (full: seq<NodeId>)
    requires WellFormed(w) && FullLevels(Shape(w), lv) && Scheduled(Shape(w), lv, order, r)
    requires Fifo(Shape(w), RunTies(w), order + r.queue)
    ensures RunOrder(w, full) && order <= full && (r.queue != [] ==> order + [r.queue[0]] <= full)
    decreases |w.nodes| - |order|
  {
    if r.queue == [] {
      full := order;
      assert order + [] == order;
      DrainedMeansDone(Shape(w), lv, order);
    } else {
      var n := r.queue[0];
      NextIsLegal(Shape(w), lv, order, r);
      OrderFits(w, order + [n]);
      ScheduleStep(w, lv, order, r);
      FifoStep(w, order, r);
      full := DrainRun(w, lv, order + [n], Advanced(Readiness(r.pending, r.queue[1..]), OutgoingOf(w.connections, n), n));
    }
  }

  lemma ReleasedInside(g: Digraph, order: seq<NodeId>, n: NodeId, released: seq<NodeId>)
    requires Elems(released) == Released(g, order, n)
    ensures Elems(released) <= g.Keys
  {
  }

  lemma LiveStep(s: Setup, order: seq<NodeId>, m: Records, inputs: map<NodeId, Inputs>, n: NodeId)
    requires Live(s, order, m, inputs) && n !in order && n in Shape(s.workflow)
    requires Legal(Shape(s.workflow), order + [n])
    requires !Fatal(NodeOf(s.workflow, n), Expected(s, order, m, n))
    ensures
      var data := Expected(s, order, m, n);
      Live(s, order + [n], m[n := data], Delivered(inputs, OutgoingOf(s.workflow.connections, n), data.items))
  {
    var data := Expected(s, order, m, n);
    SolvesPush(s, order, m, n);
    DeliverStep(s, inputs, order, m, n, data);
    NoFatalPush(s, order, m, n, data);
  }

  lemma NoFatalPush(s: Setup, order: seq<NodeId>, m: Records, n: NodeId, data: NodeRunData)
    requires NoFatal(s, order, m) && n !in order && n in Shape(s.workflow)
    ensures NoFatal(s, order, m[n := data])
    ensures !Fatal(NodeOf(s.workflow, n), data) ==> NoFatal(s, order + [n], m[n := data])
  {
    var m' := m[n := data];
    forall x | x in order
      ensures !FatalAt(s, m', x)
    {
      assert !FatalAt(s, m, x);
    }
  }

  lemma DeadStep(s: Setup, lv: map<NodeId, nat>, order: seq<NodeId>, m: Records, inputs: map<NodeId, Inputs>, n: NodeId)
    requires Live(s, order, m, inputs) && n !in order && n in Shape(s.workflow)
    requires Legal(Shape(s.workflow), order + [n]) && Sorted(lv, order + [n])
    requires Fatal(NodeOf(s.workflow, n), Expected(s, order, m, n))
    ensures Dead(s, lv, order + [n], m[n := Expected(s, order, m, n)], n)
  {
    var data := Expected(s, order, m, n);
    SolvesPush(s, order, m, n);
    NoFatalPush(s, order, m, n, data);
    assert Init(order + [n]) == order;
  }

  // ---- One node ------------------------------------------------------------------------------------

  /** Runs one node; a failure without continue-on-fail marks the run failed. */
  method RunOne(w: Workflow, impl: Implementation, node: Node, inputs: Inputs, state: RunState) returns (data: NodeRunData)
    modifies state`failedNodeId
    ensures data == NodeOutcome(w, impl, node, inputs)
    ensures state.failedNodeId == if Fatal(node, data) then Some(node.id) else old(state.failedNodeId)
  {
    if node.disabled {
      return NodeRunData([Bucket(inputs, MAIN_PORT)], Disabled, None);
    }
    if node.id in w.pinData {
      return NodeRunData([Pinned(w.pinData[node.id])], Succeeded, None);
    }
    match impl(node, inputs)
    case Output(items) =>
      data := NodeRunData(items, Succeeded, None);
    case Raised(message, code) =>
      data := HandleNodeException(node, NodeError(message, code), state);
  }

  method HandleNodeException(node: Node, error: NodeError, state: RunState) returns (data: NodeRunData)
    modifies state`failedNodeId
    ensures data.status.Errored?
    ensures node.continueOnFail ==> data.items == [[Item("{}", Some(error))]] && data.error == None
    ensures !node.continueOnFail ==> data.items == [] && data.error == Some(error)
    ensures state.failedNodeId == if node.continueOnFail then old(state.failedNodeId) else Some(node.id)
  {
    if node.continueOnFail {
      return NodeRunData([[Item("{}", Some(error))]], Errored, None);
    }
    state.MarkFailed(node.id);
    data := NodeRunData([], Errored, Some(error));
  }

  // ---- The loop ---------------------------------------------------------------------------------------

  function SeedItems(initialItems: Option<seq<Item>>): seq<Item> {
    match initialItems
    case Some(items) => items
    case None => [Item("{}", None)]
  }

  ghost predicate Singles(perNode: map<NodeId, seq<NodeRunData>>, m: Records) {
    perNode.Keys == m.Keys && forall n | n in m :: perNode[n] == [m[n]]
  }

  lemma StartScheduled(g: Graph, w: Workflow, lv: map<NodeId, nat>)
    requires GraphOf(g, w) && FullLevels(Shape(w), lv)
    ensures Scheduled(Shape(w), lv, [], Readiness(Parents(g.incoming), g.rootIds))
  {
    IncomingIsShape(w, g.incoming);
    StartWorklist(Shape(w), g.rootIds);
    StartLevelled(Shape(w), lv, g.rootIds);
    StartPending(Shape(w));
  }

  lemma StartPending(g: Digraph)
    ensures PendingParents(g, g, Elems<NodeId>([]))
  {
    assert forall n | n in g :: g[n] - Elems<NodeId>([]) == g[n];
  }

  lemma StartLive(s: Setup, rootIds: seq<NodeId>, inputs: map<NodeId, Inputs>)
    requires Elems(rootIds) == set n | n in Shape(s.workflow) && Shape(s.workflow)[n] == {}
    requires inputs == map n | n in rootIds :: map[MAIN_PORT := s.seeds]
    ensures Live(s, [], map[], inputs)
  {
    forall n | n in Shape(s.workflow)
      ensures NodeInputs(inputs, n) == InputsOf(s.workflow, s.seeds, [], map[], n)
    {
      assert n in rootIds <==> n in Elems(rootIds);
      assert FedPorts(s.workflow.connections, [], n) == {};
    }
  }

  lemma StartLevelled(g: Digraph, lv: map<NodeId, nat>, roots: seq<NodeId>)
    requires FullLevels(g, lv) && Elems(roots) == set n | n in g && g[n] == {}
    ensures Levelled(g, lv, [], roots)
  {
    assert [] + roots == roots;
    forall n | n in roots
      ensures n in lv && lv[n] == 0
    {
      assert n in Elems(roots);
      assert LevelAt(g, lv, n);
    }
    assert forall i | 0 <= i < |roots| :: roots[i] in roots;
  }

  method Run(w: Workflow, initialItems: Option<seq<Item>>, impl: Implementation)
    returns (r: Result<Execution, GraphError>)
    ensures r.Success? <==> WellFormed(w) && Acyclic(Shape(w))
    ensures r.Success? ==>
              Faithful(Setup(w, (match initialItems case Some(items) => items case None => [Item("{}", None)]), impl), r.value)
    ensures r.Success? ==> StartsRunOrder(w, r.value.order)
  {
    var built := Build(w);
    if built.Failure? {
      return Failure(built.error);
    }
    var e := RunGraph(built.value, SeedItems(initialItems), impl);
    r := Success(e);
  }

  /** The values of every dictionary and list the loop mutates. */
  datatype Loop = Loop(
    order: seq<NodeId>,
    perNode: map<NodeId, seq<NodeRunData>>,
    failed: Option<NodeId>,
    inputs: map<NodeId, Inputs>,
    waiting: Readiness)

  ghost function Snapshot(state: RunState, dispatch: Dispatch): Loop
    reads state, dispatch
  {
    Loop(state.order, state.perNode, state.failedNodeId, dispatch.inputsByNode, dispatch.Waiting())
  }

  ghost predicate CanStep(graph: Graph, l: Loop) {
    l.waiting.queue != [] && l.waiting.queue[0] in graph.nodesById && l.waiting.queue[0] in graph.outgoing
  }

  ghost function OutcomeOfFront(graph: Graph, impl: Implementation, l: Loop): NodeRunData
    requires CanStep(graph, l)
  {
    var n := l.waiting.queue[0];
    NodeOutcome(graph.workflow, impl, graph.nodesById[n], NodeInputs(l.inputs, n))
  }

  /** One turn: run the front of the queue, record it, and route its outputs unless it was fatal. */
  ghost function Turn(graph: Graph, impl: Implementation, l: Loop): Loop
    requires CanStep(graph, l)
  {
    var n, rest := l.waiting.queue[0], Readiness(l.waiting.pending, l.waiting.queue[1..]);
    var node, data := graph.nodesById[n], OutcomeOfFront(graph, impl, l);
    var recorded := l.(order := if n in l.perNode then l.order else l.order + [n],
                       perNode := l.perNode[n := Bucket(l.perNode, n) + [data]]);
    if Fatal(node, data) then recorded.(failed := Some(node.id), waiting := rest)
    else recorded.(inputs := Delivered(l.inputs, graph.outgoing[n], data.items),
                   waiting := Advanced(rest, graph.outgoing[n], n))
  }

  method TakeTurn(graph: Graph, impl: Implementation, state: RunState, dispatch: Dispatch)
    requires dispatch.graph == graph && CanStep(graph, Snapshot(state, dispatch))
    modifies state, dispatch
    ensures Snapshot(state, dispatch) == Turn(graph, impl, old(Snapshot(state, dispatch)))
  {
    var n := dispatch.readyQueue[0];
    dispatch.readyQueue := dispatch.readyQueue[1..];
    var node := graph.nodesById[n];
    var data := RunOne(graph.workflow, impl, node, NodeInputs(dispatch.inputsByNode, n), state);
    state.Record(n, data);
    if data.status.Errored? && !node.continueOnFail {
      return;
    }
    dispatch.PropagateOutputs(n, data.items);
    dispatch.AdvanceReadiness(n);
  }

  /** The loop invariant: alive with exact bookkeeping, or dead at the fatal node. */
  ghost predicate Invariant(s: Setup, lv: map<NodeId, nat>, l: Loop, m: Records) {
    && Singles(l.perNode, m) && m.Keys == Elems(l.order)
    && match l.failed
       case None => Scheduled(Shape(s.workflow), lv, l.order, l.waiting) && Live(s, l.order, m, l.inputs)
       case Some(n) => Dead(s, lv, l.order, m, n)
  }

  lemma FrontIsNext(graph: Graph, s: Setup, lv: map<NodeId, nat>, l: Loop, m: Records)
    requires GraphOf(graph, s.workflow) && Invariant(s, lv, l, m)
    requires l.waiting.queue != [] && l.failed.None?
    ensures CanStep(graph, l)
    ensures var n := l.waiting.queue[0];
      && n in Shape(s.workflow) && n !in l.perNode && n !in l.order
      && Legal(Shape(s.workflow), l.order + [n]) && Sorted(lv, l.order + [n])
      && graph.nodesById[n] == NodeOf(s.workflow, n) && graph.nodesById[n].id == n
      && graph.outgoing[n] == OutgoingOf(s.workflow.connections, n)
      && OutcomeOfFront(graph, s.impl, l) == Expected(s, l.order, m, n)
  {
    NextIsLegal(Shape(s.workflow), lv, l.order, l.waiting);
    LookUp(graph, l.waiting.queue[0]);
  }

  /** Every turn keeps the invariant. */
  lemma TurnKeeps(graph: Graph, s: Setup, lv: map<NodeId, nat>, l: Loop, m: Records) returns (m': Records)
    requires GraphOf(graph, s.workflow) && FullLevels(Shape(s.workflow), lv) && Invariant(s, lv, l, m)
    requires l.waiting.queue != [] && l.failed.None? && CanStep(graph, l)
    ensures Invariant(s, lv, Turn(graph, s.impl, l), m')
    ensures Turn(graph, s.impl, l).order == l.order + [l.waiting.queue[0]]
    ensures |l.order| < |s.workflow.nodes|
  {
    var n := l.waiting.queue[0];
    FrontIsNext(graph, s, lv, l, m);
    m' := TurnKeepsRecords(graph, s, l, m);
    OrderFits(s.workflow, l.order + [n]);
    if Fatal(graph.nodesById[n], m'[n]) {
      DeadStep(s, lv, l.order, m, l.inputs, n);
    } else {
      LiveTurn(s, lv, l, m, n);
    }
  }

  lemma LiveTurn(s: Setup, lv: map<NodeId, nat>, l: Loop, m: Records, n: NodeId)
    requires WellFormed(s.workflow) && FullLevels(Shape(s.workflow), lv) && l.waiting.queue != [] && n == l.waiting.queue[0]
    requires Scheduled(Shape(s.workflow), lv, l.order, l.waiting) && Live(s, l.order, m, l.inputs)
    requires n in Shape(s.workflow) && !Fatal(NodeOf(s.workflow, n), Expected(s, l.order, m, n))
    ensures
      var data, edges := Expected(s, l.order, m, n), OutgoingOf(s.workflow.connections, n);
      && Live(s, l.order + [n], m[n := data], Delivered(l.inputs, edges, data.items))
      && Scheduled(Shape(s.workflow), lv, l.order + [n], Advanced(Readiness(l.waiting.pending, l.waiting.queue[1..]), edges, n))
  {
    NextIsLegal(Shape(s.workflow), lv, l.order, l.waiting);
    LiveStep(s, l.order, m, l.inputs, n);
    ScheduleStep(s.workflow, lv, l.order, l.waiting);
  }

  /** The order recorded so far starts the one run order, and while nothing failed the queue continues it. */
  ghost predicate InRunOrder(w: Workflow, l: Loop) {
    match l.failed
    case None => Fifo(Shape(w), RunTies(w), l.order + l.waiting.queue)
    case Some(_) => StartsRunOrder(w, l.order)
  }

  lemma TurnKeepsOrder(graph: Graph, s: Setup, lv: map<NodeId, nat>, l: Loop, m: Records)
    requires GraphOf(graph, s.workflow) && FullLevels(Shape(s.workflow), lv) && Invariant(s, lv, l, m)
    requires l.waiting.queue != [] && l.failed.None? && CanStep(graph, l) && InRunOrder(s.workflow, l)
    ensures InRunOrder(s.workflow, Turn(graph, s.impl, l))
  {
    FrontIsNext(graph, s, lv, l, m);
    FifoStep(s.workflow, l.order, l.waiting);
    var full := DrainRun(s.workflow, lv, l.order, l.waiting);
  }

  lemma TurnKeepsRecords(graph: Graph, s: Setup, l: Loop, m: Records) returns (m': Records)
    requires CanStep(graph, l) && Singles(l.perNode, m) && m.Keys == Elems(l.order)
    requires l.waiting.queue[0] !in l.order && l.waiting.queue[0] !in l.perNode
    ensures m' == m[l.waiting.queue[0] := OutcomeOfFront(graph, s.impl, l)]
    ensures Singles(Turn(graph, s.impl, l).perNode, m') && m'.Keys == Elems(Turn(graph, s.impl, l).order)
  {
    m' := m[l.waiting.queue[0] := OutcomeOfFront(graph, s.impl, l)];
    ElemsPush(l.order, l.waiting.queue[0]);
  }

  method RunGraph(graph: Graph, seeds: seq<Item>, impl: Implementation) returns (e: Execution)
    requires GraphOf(graph, graph.workflow)
    ensures Faithful(Setup(graph.workflow, seeds, impl), e) && StartsRunOrder(graph.workflow, e.order)
  {
    var w := graph.workflow;
    var state := new RunState(w);
    var dispatch := new Dispatch(graph, seeds);
    ghost var s := Setup(w, seeds, impl);
    ghost var lv: map<NodeId, nat> :| FullLevels(Shape(w), lv);
    ghost var m: Records := map[];
    StartScheduled(graph, w, lv);
    StartLive(s, graph.rootIds, dispatch.inputsByNode);
    StartFifo(Shape(w), RunTies(w), graph.rootIds);
    while dispatch.readyQueue != [] && state.failedNodeId.None?
      invariant fresh(state) && fresh(dispatch) && dispatch.graph == graph && state.workflow == w
      invariant Invariant(s, lv, Snapshot(state, dispatch), m) && InRunOrder(w, Snapshot(state, dispatch))
      decreases |w.nodes| - |state.order|
    {
      FrontIsNext(graph, s, lv, Snapshot(state, dispatch), m);
      TurnKeepsOrder(graph, s, lv, Snapshot(state, dispatch), m);
      m := TurnKeeps(graph, s, lv, Snapshot(state, dispatch), m);
      TakeTurn(graph, impl, state, dispatch);
    }
    Finish(s, lv, state.order, m, state.failedNodeId, dispatch.Waiting(), dispatch.inputsByNode);
    FinishInOrder(s, lv, Snapshot(state, dispatch), m);
    e := state.BuildExecution();
    Conclude(s, lv, m, state.failedNodeId, e);
  }

  lemma LookUp(graph: Graph, n: NodeId)
    requires GraphOf(graph, graph.workflow) && n in Shape(graph.workflow)
    ensures n in graph.nodesById && n in graph.outgoing
    ensures graph.nodesById[n] == NodeOf(graph.workflow, n) && graph.nodesById[n].id == n
    ensures graph.outgoing[n] == OutgoingOf(graph.workflow.connections, n)
  {
    var node := NodeOf(graph.workflow, n);
    assert node in graph.workflow.nodes;
  }

  lemma OrderFits(w: Workflow, order: seq<NodeId>)
    requires WellFormed(w) && Legal(Shape(w), order)
    ensures |order| <= |w.nodes|
  {
    DistinctSize(order);
    DistinctSize(Ids(w.nodes));
    assert forall i | 0 <= i < |order| :: order[i] in Shape(w);
    SubsetSize(Elems(order), Elems(Ids(w.nodes)));
  }

  /** How the loop can end: at its fatal node, or with every node recorded. */
  ghost predicate Ended(s: Setup, lv: map<NodeId, nat>, order: seq<NodeId>, m: Records, failed: Option<NodeId>) {
    && Legal(Shape(s.workflow), order) && Sorted(lv, order) && Solves(s, order, m)
    && (forall i | 0 <= i < |order| - 1 :: !FatalAt(s, m, order[i]))
    && match failed
       case Some(n) => order != [] && n == Last(order) && FatalAt(s, m, n)
       case None => Topological(Shape(s.workflow), order) && NoFatal(s, order, m)
  }

  lemma Finish(s: Setup, lv: map<NodeId, nat>, order: seq<NodeId>, m: Records, failed: Option<NodeId>,
               r: Readiness, inputs: map<NodeId, Inputs>)
    requires FullLevels(Shape(s.workflow), lv)
    requires failed.None? ==> r.queue == [] && Scheduled(Shape(s.workflow), lv, order, r) && Live(s, order, m, inputs)
    requires failed.Some? ==> Dead(s, lv, order, m, failed.value)
    ensures Ended(s, lv, order, m, failed)
  {
    if failed.None? {
      DrainedMeansDone(Shape(s.workflow), lv, order);
      assert order + [] == order;
      NoneFatalBefore(s, order, order, m);
    } else {
      NoneFatalBefore(s, order, Init(order), m);
    }
  }

  lemma FinishInOrder(s: Setup, lv: map<NodeId, nat>, l: Loop, m: Records)
    requires WellFormed(s.workflow) && FullLevels(Shape(s.workflow), lv) && Invariant(s, lv, l, m) && InRunOrder(s.workflow, l)
    ensures StartsRunOrder(s.workflow, l.order)
  {
    if l.failed.None? { var full := DrainRun(s.workflow, lv, l.order, l.waiting); }
  }

  lemma NoneFatalBefore(s: Setup, order: seq<NodeId>, clear: seq<NodeId>, m: Records)
    requires NoFatal(s, clear, m) && |clear| >= |order| - 1 && clear <= order
    ensures forall i | 0 <= i < |order| - 1 :: !FatalAt(s, m, order[i])
  {
    forall i | 0 <= i < |order| - 1
      ensures !FatalAt(s, m, order[i])
    {
      assert order[i] == clear[i] && clear[i] in clear;
    }
  }

  lemma Conclude(s: Setup, lv: map<NodeId, nat>, m: Records, failed: Option<NodeId>, e: Execution)
    requires FullLevels(Shape(s.workflow), lv) && Ended(s, lv, e.order, m, failed)
    requires Singles(e.perNode, m) && m.Keys == Elems(e.order) && e.workflow == s.workflow
    requires e.status.ExecutionErrored? <==> failed.Some? && failed.value != ""
    ensures Faithful(s, e)
  {
    RecordsAre(e, m);
    AbortedIffFailed(s, m, failed, e);
  }

  lemma AbortedIffFailed(s: Setup, m: Records, failed: Option<NodeId>, e: Execution)
    requires RecordsOf(e) == m
    requires failed.None? ==> NoFatal(s, e.order, m)
    requires failed.Some? ==> e.order != [] && failed.value == Last(e.order) && FatalAt(s, m, failed.value)
    ensures Aborted(s, e) <==> failed.Some?
  {
    if failed.None? && e.order != [] {
      assert Last(e.order) in e.order;
    }
  }

  lemma RecordsAre(e: Execution, m: Records)
    requires Singles(e.perNode, m)
    ensures RecordsOf(e) == m
  {
  }
}
