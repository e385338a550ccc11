/** The return value of a sub-workflow: the first output of its terminal nodes. */
module SubWorkflows {
  import opened Collections
  import opened Digraphs
  import opened Workflows
  import opened WorkflowGraphs
  import opened Worklists
  import opened Dataflow
  import opened Runtime
  import opened Executor

  /** The nodes with a connection that leaves by the main port. */
  function MainSources(cs: seq<Connection>): set<NodeId> {
    set c | c in cs && c.sourcePort == MAIN_PORT :: c.sourceNode
  }

  ghost function FirstOutput(perNode: map<NodeId, seq<NodeRunData>>, n: NodeId): seq<Item> {
    var runs := Bucket(perNode, n);
    if runs == [] || Last(runs).items == [] then [] else Last(runs).items[0]
  }

  /** First outputs of the nodes of order outside skip, in that order. */
  ghost function FirstOutputs(perNode: map<NodeId, seq<NodeRunData>>, order: seq<NodeId>, skip: set<NodeId>): seq<Item> {
    if order == [] then []
    else FirstOutputs(perNode, Init(order), skip) +
         (if Last(order) in skip then [] else FirstOutput(perNode, Last(order)))
  }

  method CollectTerminalItems(e: Execution) returns (items: seq<Item>)
    requires Elems(e.order) == e.perNode.Keys
    ensures items == FirstOutputs(e.perNode, e.order, MainSources(e.workflow.connections))
  {
    var mainSources := MainSources(e.workflow.connections);
    items := [];
    var i := 0;
    while i < |e.order|
      invariant 0 <= i <= |e.order|
      invariant items == FirstOutputs(e.perNode, e.order[..i], mainSources)
    {
      var n := e.order[i];
      assert n in Elems(e.order);
      assert Init(e.order[..i + 1]) == e.order[..i];
      var runs := e.perNode[n];
      if n !in mainSources && runs != [] {
        var last := Last(runs);
        if last.items != [] {
          items := items + last.items[0];
        }
      }
      i := i + 1;
    }
    TakeAll(e.order, i);
  }

  // ---- Terminal nodes are the sinks -----------------------------------------------------

  /** The nodes with no outgoing connection at all. */
  ghost function Sinks(w: Workflow): set<NodeId> {
    set n | n in Shape(w) && OutgoingOf(w.connections, n) == []
  }

  /** Every node with an outgoing connection has one on the main port. */
  ghost predicate LeavesByMain(w: Workflow) {
    forall c | c in w.connections :: exists d :: d in w.connections && d.sourceNode == c.sourceNode && d.sourcePort == "main"
  }

  lemma {:induction false} OutgoingEmpty(cs: seq<Connection>, n: NodeId)
    ensures OutgoingOf(cs, n) == [] <==> forall c | c in cs :: c.sourceNode != n
  {
    if cs != [] {
      OutgoingEmpty(Init(cs), n);
      InitLast(cs);
      assert Last(cs) in cs;
      assert forall c :: c in cs <==> c in Init(cs) || c == Last(cs);
    }
  }

  lemma LeavesByMainIff(w: Workflow)
    ensures LeavesByMain(w) <==> forall c | c in w.connections :: c.sourceNode in MainSources(w.connections)
  {
  }

  /** The collected nodes are the sinks of the graph exactly when every source leaves by main. */
  lemma TerminalsAreSinks(w: Workflow)
    requires WellFormed(w)
    ensures Shape(w).Keys - MainSources(w.connections) == Sinks(w) <==> LeavesByMain(w)
  {
    LeavesByMainIff(w);
    SinksByMainSources(w);
  }

  lemma SinksByMainSources(w: Workflow)
    requires WellFormed(w)
    ensures Shape(w).Keys - MainSources(w.connections) == Sinks(w) <==>
            forall c | c in w.connections :: c.sourceNode in MainSources(w.connections)
  {
    forall n | n in Shape(w)
      ensures n in Sinks(w) <==> forall c | c in w.connections :: c.sourceNode != n
    {
      OutgoingEmpty(w.connections, n);
    }
    if forall c | c in w.connections :: c.sourceNode in MainSources(w.connections) {
      assert forall n | n in Shape(w) && n !in Sinks(w) :: n in MainSources(w.connections);
      assert Shape(w).Keys - MainSources(w.connections) == Sinks(w);
    } else {
      var c :| c in w.connections && c.sourceNode !in MainSources(w.connections);
      assert c.sourceNode in Shape(w) && c.sourceNode !in Sinks(w);
    }
  }

  /** The first outputs of the listed nodes, in order. */
  ghost function Heads(order: seq<NodeId>, m: Records): seq<Item> {
    if order == [] then []
    else
      var outs := OutputsOf(m, Last(order));
      Heads(Init(order), m) + (if outs == [] then [] else outs[0])
  }

  lemma {:induction false} FirstOutputsAreHeads(e: Execution, order: seq<NodeId>, skip: set<NodeId>, keep: set<NodeId>)
    requires forall n | n in e.perNode :: |e.perNode[n]| == 1
    requires forall n | n in order :: n in e.perNode && (n in skip <==> n !in keep)
    ensures FirstOutputs(e.perNode, order, skip) == Heads(Filter(order, keep), RecordsOf(e))
  {
    if order != [] {
      var n := Last(order);
      assert n in order;
      FirstOutputsAreHeads(e, Init(order), skip, keep);
      if n in keep {
        var kept := Filter(Init(order), keep);
        assert Init(kept + [n]) == kept;
        assert Last(e.perNode[n]) == RecordsOf(e)[n];
      } else {
        assert Filter(order, keep) == Filter(Init(order), keep);
      }
    }
  }

  /**
   The value of a child run with no fatal failure is output 0 of every sink, each sink
   once, in level-sorted run order.
   */
  lemma ReturnsSinks(s: Setup, e: Execution) returns (sinks: seq<NodeId>)
    requires Faithful(s, e) && !Aborted(s, e) && WellFormed(s.workflow) && LeavesByMain(s.workflow)
    ensures FirstOutputs(e.perNode, e.order, MainSources(e.workflow.connections)) == Heads(sinks, RecordsOf(e))
    ensures sinks == Filter(e.order, Sinks(s.workflow))
    ensures Distinct(sinks) && Elems(sinks) == Sinks(s.workflow)
    ensures LevelOrdered(Shape(s.workflow), sinks)
  {
    var w := s.workflow;
    TerminalsAreSinks(w);
    sinks := SinksInOrder(e, w);
    FirstOutputsAreHeads(e, e.order, MainSources(w.connections), Sinks(w));
    var lv :| FullLevels(Shape(w), lv) && Sorted(lv, e.order);
    FilterSorted(lv, e.order, Sinks(w));
  }

  lemma SinksInOrder(e: Execution, w: Workflow) returns (sinks: seq<NodeId>)
    requires Topological(Shape(w), e.order) && e.perNode.Keys == Elems(e.order)
    requires Shape(w).Keys - MainSources(w.connections) == Sinks(w)
    ensures sinks == Filter(e.order, Sinks(w)) && Distinct(sinks) && Elems(sinks) == Sinks(w)
    ensures forall n | n in e.order :: n in e.perNode && (n in MainSources(w.connections) <==> n !in Sinks(w))
  {
    sinks := Filter(e.order, Sinks(w));
    FilterElems(e.order, Sinks(w));
    forall n | n in e.order
      ensures n in e.perNode && (n in MainSources(w.connections) <==> n !in Sinks(w))
    {
      assert n in Elems(e.order);
      assert n in Shape(w).Keys - MainSources(w.connections) <==> n in Sinks(w);
    }
  }

  lemma {:induction false} FilterSorted(lv: map<NodeId, nat>, order: seq<NodeId>, keep: set<NodeId>)
    requires Sorted(lv, order)
    ensures Sorted(lv, Filter(order, keep))
  {
    if order != [] {
      var n, rest := Last(order), Filter(Init(order), keep);
      FilterSorted(lv, Init(order), keep);
      if n in keep {
        FilterElems(Init(order), keep);
        forall i | 0 <= i < |rest|
          ensures lv[rest[i]] <= lv[n]
        {
          assert rest[i] in Elems(rest);
          var k :| 0 <= k < |Init(order)| && Init(order)[k] == rest[i];
          assert order[k] == rest[i];
        }
      }
    }
  }
}
