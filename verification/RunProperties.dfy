/** What every execution of the run loop satisfies, stated without the loop. */
module RunProperties {
  import opened Collections
  import opened Digraphs
  import opened Workflows
  import opened WorkflowGraphs
  import opened Worklists
  import opened Dataflow
  import opened Dispatching
  import opened Deliveries
  import opened FanIn
  import opened Runtime
  import opened Executor

  // ---- Aborts ---------------------------------------------------------------------------

  lemma FatalHasNoItems(s: Setup, order: seq<NodeId>, m: Records, n: NodeId)
    requires Solves(s, order, m) && FatalAt(s, m, n)
    ensures m[n].items == [] && m[n].error.Some?
  {
    assert m[n] == Expected(s, order, m, n);
  }

  /**
   A fatal node is the last one recorded and produced nothing; none of its
   descendants ran; everything recorded has its parents recorded.
   */
  lemma AbortSafety(s: Setup, e: Execution, n: NodeId)
    requires Faithful(s, e) && FatalAt(s, RecordsOf(e), n)
    ensures e.order != [] && n == Last(e.order)
    ensures RecordsOf(e)[n].items == []
    ensures forall p | IsPath(Shape(s.workflow), p) && |p| >= 2 && p[0] == n :: Last(p) !in e.order
    ensures forall x | x in e.order :: x in Shape(s.workflow) && Shape(s.workflow)[x] <= Elems(e.order)
  {
    var g := Shape(s.workflow);
    FatalIsLast(s, e, n);
    forall p | IsPath(g, p) && |p| >= 2 && p[0] == n
      ensures Last(p) !in e.order
    {
      DescendantsOutside(g, e.order, p);
    }
    forall x | x in e.order
      ensures x in g && g[x] <= Elems(e.order)
    {
      ParentsInside(g, e.order, x);
    }
  }

  lemma FatalIsLast(s: Setup, e: Execution, n: NodeId)
    requires Faithful(s, e) && FatalAt(s, RecordsOf(e), n)
    ensures Legal(Shape(s.workflow), e.order) && e.order != [] && n == Last(e.order) && RecordsOf(e)[n].items == []
  {
    assert n in Elems(e.order);
    var k :| 0 <= k < |e.order| && e.order[k] == n;
    FatalHasNoItems(s, e.order, RecordsOf(e), n);
  }

  /** The node with the empty id may run its implementation and abort the run. */
  ghost predicate CanFailSilently(w: Workflow) {
    "" in Shape(w) && "" !in w.pinData && !NodeOf(w, "").disabled && !NodeOf(w, "").continueOnFail
  }

  /** The status reports a fatal failure in every run of a workflow that cannot fail silently. */
  lemma StatusReportsFailure(s: Setup, e: Execution)
    requires Faithful(s, e) && !CanFailSilently(s.workflow)
    ensures e.status.ExecutionErrored? <==> exists n :: FatalAt(s, RecordsOf(e), n)
  {
    var m := RecordsOf(e);
    if n :| FatalAt(s, m, n) {
      AbortSafety(s, e, n);
      assert m[n] == Expected(s, e.order, m, n);
    }
  }

  function RaisesAtEmptyId(node: Node, inputs: Inputs): Outcome {
    if node.id == "" then Raised("boom", "RuntimeError") else Output([])
  }

  /** Every other workflow has a run that fails at the node with the empty id and reads as a success. */
  method FailSilently(w: Workflow, initialItems: Option<seq<Item>>) returns (e: Execution)
    requires WellFormed(w) && Acyclic(Shape(w)) && CanFailSilently(w)
    ensures Faithful(Setup(w, SeedItems(initialItems), RaisesAtEmptyId), e)
    ensures FatalAt(Setup(w, SeedItems(initialItems), RaisesAtEmptyId), RecordsOf(e), "")
    ensures e.status.ExecutionSucceeded?
  {
    var r := Run(w, initialItems, RaisesAtEmptyId);
    e := r.value;
    FailsAtEmptyId(Setup(w, SeedItems(initialItems), RaisesAtEmptyId), e);
  }

  lemma OnlyEmptyIdRaises(s: Setup, order: seq<NodeId>, m: Records, n: NodeId)
    requires Solves(s, order, m) && n in m && CanFailSilently(s.workflow) && s.impl == RaisesAtEmptyId
    ensures FatalAt(s, m, n) <==> n == ""
  {
    assert m[n] == Expected(s, order, m, n);
  }

  lemma FailsAtEmptyId(s: Setup, e: Execution)
    requires Faithful(s, e) && CanFailSilently(s.workflow) && s.impl == RaisesAtEmptyId
    ensures FatalAt(s, RecordsOf(e), "") && e.status.ExecutionSucceeded?
  {
    var m := RecordsOf(e);
    forall n | n in m
      ensures FatalAt(s, m, n) <==> n == ""
    {
      OnlyEmptyIdRaises(s, e.order, m, n);
    }
    assert Aborted(s, e) || "" in Elems(e.order);
    if "" in m { AbortSafety(s, e, ""); }
  }

  // ---- Completeness and order ------------------------------------------------------------------

  /** At every position Kahn's order and the run order hold nodes of the same longest-path depth. */
  lemma OrdersLineUp(g: Graph, s: Setup, e: Execution, lv: map<NodeId, nat>)
    requires GraphOf(g, s.workflow) && Faithful(s, e) && !Aborted(s, e) && FullLevels(Shape(s.workflow), lv)
    ensures |g.topo| == |e.order|
    ensures forall i | 0 <= i < |g.topo| ::
              g.topo[i] in lv && e.order[i] in lv && lv[g.topo[i]] == lv[e.order[i]]
  {
    SortedByAny(Shape(s.workflow), lv, g.topo);
    SortedByAny(Shape(s.workflow), lv, e.order);
    LevelsLineUp(Shape(s.workflow), lv, g.topo, e.order);
  }

  lemma SortedByAny(g: Digraph, lv: map<NodeId, nat>, order: seq<NodeId>)
    requires LevelOrdered(g, order) && FullLevels(g, lv)
    ensures Sorted(lv, order)
  {
    var lv' :| FullLevels(g, lv') && Sorted(lv', order);
    forall n | n in g
      ensures lv[n] == lv'[n]
    {
      LevelsUnique(g, lv, lv', n);
    }
  }

  // ---- Meaning -----------------------------------------------------------------------------------

  /**
   The run loop refines the recursive meaning: every recorded node holds its outcome on
   what the meanings of its parents route to it, in the order the parents completed.
   */
  lemma RunIsMeaning(s: Setup, e: Execution, lv: map<NodeId, nat>, n: NodeId)
    requires Faithful(s, e) && FullLevels(Shape(s.workflow), lv) && n in e.order
    ensures n in Shape(s.workflow) && e.perNode.Keys == Elems(e.order) && n in e.perNode
    ensures e.perNode[n] == [Meaning(s, lv, e.order, n)]
  {
    assert n in Elems(e.order);
    OneRecord(s, e, n);
    SolutionIsMeaning(s, lv, e.order, RecordsOf(e), n);
  }

  /** With feeders joined by paths, the run records what running the nodes in any other legal order would. */
  lemma RunEqualsAnyOrder(s: Setup, e: Execution, order: seq<NodeId>, m: Records)
    requires Ready(s) && Faithful(s, e) && !Aborted(s, e)
    requires FeedersJoined(s.workflow) && CompleteRun(s, order, m)
    ensures RecordsOf(e) == m
  {
    OrderIndependence(s, e.order, order, RecordsOf(e), m);
  }

  /**
   The inputs a recorded node ran on: a root saw exactly the seeds, any other node saw
   on each port exactly the items of its incoming connections, each delivered once.
   */
  lemma RunConserves(s: Setup, e: Execution, n: NodeId) returns (inputs: Inputs)
    requires Ready(s) && Faithful(s, e) && n in e.order
    ensures n in RecordsOf(e) && n in Shape(s.workflow)
    ensures inputs == InputsOf(s.workflow, s.seeds, e.order, RecordsOf(e), n)
    ensures RecordsOf(e)[n] == NodeOutcome(s.workflow, s.impl, NodeOf(s.workflow, n), inputs)
    ensures IncomingOf(s.workflow.connections, n) == [] ==> inputs == map[MAIN_PORT := s.seeds]
    ensures IncomingOf(s.workflow.connections, n) != [] ==>
              forall q :: multiset(Bucket(inputs, q)) ==
                          IncomingTotal(IncomingOf(s.workflow.connections, n), q, RecordsOf(e))
  {
    assert n in Elems(e.order);
    ParentsInside(Shape(s.workflow), e.order, n);
    inputs := InputsOf(s.workflow, s.seeds, e.order, RecordsOf(e), n);
    assert RecordsOf(e)[n] == Expected(s, e.order, RecordsOf(e), n);
    InputsConserve(s, e.order, RecordsOf(e), n);
  }

  /** A disabled node is recorded too: it passes what its main port received on its first output. */
  lemma DisabledPassesMain(s: Setup, e: Execution, n: NodeId)
    requires Ready(s) && Faithful(s, e) && n in e.order && n in Shape(s.workflow) && NodeOf(s.workflow, n).disabled
    ensures n in e.perNode && |e.perNode[n]| == 1 && e.perNode[n][0].status.Disabled? && |e.perNode[n][0].items| == 1
    ensures IncomingOf(s.workflow.connections, n) == [] ==> e.perNode[n][0].items[0] == s.seeds
    ensures IncomingOf(s.workflow.connections, n) != [] ==>
              multiset(e.perNode[n][0].items[0]) ==
              IncomingTotal(IncomingOf(s.workflow.connections, n), MAIN_PORT, RecordsOf(e))
  {
    assert n in Elems(e.order);
    var inputs := RunConserves(s, e, n);
    DisabledOutcome(s.workflow, s.impl, NodeOf(s.workflow, n), inputs);
    assert Last(e.perNode[n]) == RecordsOf(e)[n];
  }

  lemma DisabledOutcome(w: Workflow, impl: Implementation, node: Node, inputs: Inputs)
    requires node.disabled
    ensures NodeOutcome(w, impl, node, inputs) == NodeRunData([Bucket(inputs, MAIN_PORT)], Disabled, None)
  {
  }

  // ---- Which order a run takes ---------------------------------------------------------------------

  /** All runs of a workflow record the nodes in one order; a run that stops early records the start of it. */
  lemma OneRunOrder(w: Workflow, a: seq<NodeId>, b: seq<NodeId>)
    requires WellFormed(w) && StartsRunOrder(w, a) && StartsRunOrder(w, b)
    ensures a <= b || b <= a
    ensures Topological(Shape(w), a) && Topological(Shape(w), b) ==> a == b
  {
    var full :| RunOrder(w, full) && a <= full;
    var full' :| RunOrder(w, full') && b <= full';
    OneFullOrder(w, full, full');
    if Topological(Shape(w), a) && Topological(Shape(w), b) {
      DistinctSize(a);
      DistinctSize(b);
    }
  }

  lemma OneFullOrder(w: Workflow, a: seq<NodeId>, b: seq<NodeId>)
    requires WellFormed(w) && RunOrder(w, a) && RunOrder(w, b)
    ensures a == b
  {
    RunTiesAsymmetric(w);
    FifoUnique(Shape(w), RunTies(w), a, b);
  }

  /** Connection j is the first from p to x. */
  ghost predicate FirstWire(cs: seq<Connection>, p: NodeId, x: NodeId, j: nat) {
    && j < |cs| && cs[j].sourceNode == p && cs[j].targetNode == x
    && forall i | 0 <= i < j :: !(cs[i].sourceNode == p && cs[i].targetNode == x)
  }

  lemma WireBeforeIff(cs: seq<Connection>, p: NodeId, x: NodeId, y: NodeId, i: nat, j: nat)
    requires FirstWire(cs, p, x, i) && FirstWire(cs, p, y, j)
    ensures WireBefore(cs, p, x, y) <==> i < j
  {
    assert Joins(cs[i], p, x) && Joins(cs[j], p, y);
    if WireBefore(cs, p, x, y) {
      var k :| 0 <= k < |cs| && Joins(cs[k], p, x) && forall m | 0 <= m <= k :: !Joins(cs[m], p, y);
      assert k < j && i <= k;
    }
  }

  lemma FullRank(w: Workflow, order: seq<NodeId>, a: nat, b: nat) returns (full: seq<NodeId>)
    requires StartsRunOrder(w, order) && a < |order| && b < |order| && a != b
    ensures order <= full && Distinct(full) && Legal(Shape(w), full)
    ensures a < b ==> Ranked(Shape(w), RunTies(w), full, order[a], order[b])
    ensures b < a ==> Ranked(Shape(w), RunTies(w), full, order[b], order[a])
  {
    full :| RunOrder(w, full) && order <= full;
    if a < b {
      FifoDecides(Shape(w), RunTies(w), full, a, b);
    } else {
      FifoDecides(Shape(w), RunTies(w), full, b, a);
    }
  }

  /** Roots are recorded first, in the order the workflow lists its nodes. */
  lemma RootsFirst(w: Workflow, order: seq<NodeId>, a: nat, b: nat)
    requires WellFormed(w) && StartsRunOrder(w, order) && a < |order| && b < |order| && a != b
    requires order[a] in Shape(w) && order[b] in Shape(w) && Shape(w)[order[a]] == {}
    ensures Shape(w)[order[b]] != {} ==> a < b
    ensures Shape(w)[order[b]] == {} ==> (a < b <==> Before(Ids(w.nodes), order[a], order[b]))
  {
    var full := FullRank(w, order, a, b);
    if b < a && Before(Ids(w.nodes), order[a], order[b]) { NotBothWays(Ids(w.nodes), order[a], order[b]); }
  }

  /**
   Of two other nodes, the one whose last parent was recorded first comes first; of two with the same
   last parent, the one that the earlier connection from that parent reaches first.
   */
  lemma ReleaseOrder(w: Workflow, order: seq<NodeId>, a: nat, b: nat, i: nat, j: nat, wa: nat, wb: nat)
    requires WellFormed(w) && StartsRunOrder(w, order) && a < |order| && b < |order| && a != b
    requires ReleasedAt(Shape(w), order, order[a], i) && ReleasedAt(Shape(w), order, order[b], j)
    requires FirstWire(w.connections, order[i], order[a], wa) && FirstWire(w.connections, order[j], order[b], wb)
    ensures a < b <==> i < j || (i == j && wa < wb)
  {
    var g, cs := Shape(w), w.connections;
    var full := FullRank(w, order, a, b);
    ReleasedInFull(g, order, full, order[a], i);
    ReleasedInFull(g, order, full, order[b], j);
    if i == j {
      WireBeforeIff(cs, order[i], order[a], order[b], wa, wb);
      WireBeforeIff(cs, order[i], order[b], order[a], wb, wa);
    }
  }

  lemma ReleasedInFull(g: Digraph, order: seq<NodeId>, full: seq<NodeId>, x: NodeId, i: nat)
    requires order <= full && ReleasedAt(g, order, x, i)
    ensures ReleasedAt(g, full, x, i)
  {
    assert full[..i + 1] == order[..i + 1];
  }

  // ---- What each node records ------------------------------------------------------------------------

  /** A run is stopped by exactly the nodes that run an implementation which raises, without continue-on-fail. */
  ghost predicate Stops(s: Setup, n: NodeId, inputs: Inputs)
    requires n in Shape(s.workflow)
  {
    var node := NodeOf(s.workflow, n);
    !node.disabled && n !in s.workflow.pinData && s.impl(node, inputs).Raised? && !node.continueOnFail
  }

  /**
   What a recorded node holds, case by case: disabled nodes pass main through, pinned nodes replay
   their pins, the others keep what the implementation gave, or one error item, or nothing.
   */
  lemma RecordedOutcome(s: Setup, e: Execution, n: NodeId) returns (inputs: Inputs, data: NodeRunData)
    requires Ready(s) && Faithful(s, e) && n in e.order
    ensures n in Shape(s.workflow) && n in e.perNode && e.perNode[n] == [data]
    ensures inputs == InputsOf(s.workflow, s.seeds, e.order, RecordsOf(e), n)
    ensures NodeOf(s.workflow, n).disabled ==>
              data == NodeRunData([if "main" in inputs then inputs["main"] else []], Disabled, None)
    ensures !NodeOf(s.workflow, n).disabled && n in s.workflow.pinData ==>
              && data.status.Succeeded? && data.error == None && |data.items| == 1
              && |data.items[0]| == |s.workflow.pinData[n]|
              && forall i | 0 <= i < |data.items[0]| :: data.items[0][i] == Item(s.workflow.pinData[n][i], None)
    ensures !NodeOf(s.workflow, n).disabled && n !in s.workflow.pinData ==>
              match s.impl(NodeOf(s.workflow, n), inputs)
              case Output(items) => data == NodeRunData(items, Succeeded, None)
              case Raised(message, code) =>
                if NodeOf(s.workflow, n).continueOnFail
                then data == NodeRunData([[Item("{}", Some(NodeError(message, code)))]], Errored, None)
                else data == NodeRunData([], Errored, Some(NodeError(message, code)))
    ensures FatalAt(s, RecordsOf(e), n) <==> Stops(s, n, inputs)
  {
    inputs := RanOn(s, e, n);
    data := e.perNode[n][0];
    assert RecordsOf(e)[n] == data;
    OutcomeCases(s, NodeOf(s.workflow, n), inputs);
  }

  lemma OutcomeCases(s: Setup, node: Node, inputs: Inputs)
    ensures
      var data := NodeOutcome(s.workflow, s.impl, node, inputs);
      && (node.disabled ==> data == NodeRunData([if "main" in inputs then inputs["main"] else []], Disabled, None))
      && (!node.disabled && node.id in s.workflow.pinData ==>
            && data.status.Succeeded? && data.error == None && |data.items| == 1
            && |data.items[0]| == |s.workflow.pinData[node.id]|
            && forall i | 0 <= i < |data.items[0]| :: data.items[0][i] == Item(s.workflow.pinData[node.id][i], None))
      && (!node.disabled && node.id !in s.workflow.pinData ==>
            match s.impl(node, inputs)
            case Output(items) => data == NodeRunData(items, Succeeded, None)
            case Raised(message, code) =>
              if node.continueOnFail then data == NodeRunData([[Item("{}", Some(NodeError(message, code)))]], Errored, None)
              else data == NodeRunData([], Errored, Some(NodeError(message, code))))
  {
  }
}
