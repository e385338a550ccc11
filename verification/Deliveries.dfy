/** What each input port of an execution received, connection by connection and in which order. */
module Deliveries {
  import opened Collections
  import opened Digraphs
  import opened Workflows
  import opened WorkflowGraphs
  import opened Dataflow
  import opened Runtime
  import opened Executor

  /** Connection c leads from p into port q of n. */
  ghost predicate Feeds(c: Connection, p: NodeId, n: NodeId, q: Port) {
    c.sourceNode == p && c.targetNode == n && c.targetPort == q
  }

  /** What the connections with the given indices bring, one after the other. */
  ghost function Brought(cs: seq<Connection>, wires: seq<nat>, m: Records): seq<Item>
    requires forall j | j in wires :: j < |cs|
  {
    if wires == [] then []
    else
      assert Last(wires) in wires && forall j | j in Init(wires) :: j in wires;
      var c := cs[Last(wires)];
      var outs := OutputsOf(m, c.sourceNode);
      Brought(cs, Init(wires), m) + (if 0 <= c.sourceIndex < |outs| then outs[c.sourceIndex] else [])
  }

  /** The indices of the connections from p into port q of n, in declaration order. */
  ghost function WiresFrom(cs: seq<Connection>, p: NodeId, n: NodeId, q: Port): (wires: seq<nat>)
    ensures forall j | j in wires :: j < |cs|
  {
    if cs == [] then []
    else WiresFrom(Init(cs), p, n, q) + (if Feeds(Last(cs), p, n, q) then [(|cs| - 1) as nat] else [])
  }

  /** The same for every node of order, one after the other. */
  ghost function WiresInto(cs: seq<Connection>, order: seq<NodeId>, n: NodeId, q: Port): (wires: seq<nat>)
    ensures forall j | j in wires :: j < |cs|
  {
    if order == [] then [] else WiresInto(cs, Init(order), n, q) + WiresFrom(cs, Last(order), n, q)
  }

  // ---- Which connections, and in which order ------------------------------------------------

  lemma {:induction false} WiresFromIs(cs: seq<Connection>, p: NodeId, n: NodeId, q: Port)
    ensures forall j: nat :: j in WiresFrom(cs, p, n, q) <==> j < |cs| && Feeds(cs[j], p, n, q)
    ensures RankedList((i: nat, j: nat) => i < j, WiresFrom(cs, p, n, q))
  {
    if cs != [] {
      var before := WiresFrom(Init(cs), p, n, q);
      WiresFromIs(Init(cs), p, n, q);
      assert forall i | 0 <= i < |before| :: before[i] in before;
    }
  }

  /** Index i is delivered before index j: its source completed earlier, or is the same and it is declared earlier. */
  ghost predicate Earlier(cs: seq<Connection>, order: seq<NodeId>, i: nat, j: nat) {
    && i < |cs| && j < |cs|
    && (Before(order, cs[i].sourceNode, cs[j].sourceNode) || (cs[i].sourceNode == cs[j].sourceNode && i < j))
  }

  lemma EarlierMore(cs: seq<Connection>, order: seq<NodeId>, p: NodeId, i: nat, j: nat)
    requires Earlier(cs, order, i, j)
    ensures Earlier(cs, order + [p], i, j)
  {
    BeforePush(order, p, cs[i].sourceNode, cs[j].sourceNode);
  }

  lemma {:induction false} WiresIntoIs(cs: seq<Connection>, order: seq<NodeId>, n: NodeId, q: Port)
    requires Distinct(order)
    ensures forall j: nat :: j in WiresInto(cs, order, n, q) <==>
              j < |cs| && cs[j].sourceNode in order && Feeds(cs[j], cs[j].sourceNode, n, q)
    ensures RankedList((i: nat, j: nat) => Earlier(cs, order, i, j), WiresInto(cs, order, n, q))
  {
    if order != [] {
      var p, before := Last(order), WiresInto(cs, Init(order), n, q);
      InitLast(order);
      WiresIntoIs(cs, Init(order), n, q);
      WiresFromIs(cs, p, n, q);
      WiresRanked(cs, Init(order), p, n, q, before, WiresFrom(cs, p, n, q));
    }
  }

  lemma WiresRanked(cs: seq<Connection>, order: seq<NodeId>, p: NodeId, n: NodeId, q: Port, before: seq<nat>, more: seq<nat>)
    requires RankedList((i: nat, j: nat) => Earlier(cs, order, i, j), before) && RankedList((i: nat, j: nat) => i < j, more)
    requires forall j | j in before :: j < |cs| && cs[j].sourceNode in order
    requires forall j | j in more :: j < |cs| && cs[j].sourceNode == p
    ensures RankedList((i: nat, j: nat) => Earlier(cs, order + [p], i, j), before + more)
  {
    var all := before + more;
    forall a, b | 0 <= a < b < |all|
      ensures Earlier(cs, order + [p], all[a], all[b])
    {
      if b < |before| {
        assert Earlier(cs, order, before[a], before[b]);
        EarlierMore(cs, order, p, all[a], all[b]);
      } else {
        assert all[b] == more[b - |before|] && all[b] in more;
        if a < |before| {
          assert all[a] in before;
          BeforePush(order, p, cs[all[a]].sourceNode, p);
        } else {
          assert all[a] == more[a - |before|] && all[a] in more;
        }
      }
    }
  }

  // ---- What they bring ---------------------------------------------------------------------------

  lemma BroughtPush(cs: seq<Connection>, wires: seq<nat>, j: nat, m: Records)
    requires (forall i | i in wires :: i < |cs|) && j < |cs|
    ensures forall i | i in wires + [j] :: i < |cs|
    ensures
      var outs := OutputsOf(m, cs[j].sourceNode);
      Brought(cs, wires + [j], m) == Brought(cs, wires, m) + (if 0 <= cs[j].sourceIndex < |outs| then outs[cs[j].sourceIndex] else [])
  {
    assert Init(wires + [j]) == wires;
  }

  ghost function BroughtBy(c: Connection, m: Records): seq<Item> {
    var outs := OutputsOf(m, c.sourceNode);
    if 0 <= c.sourceIndex < |outs| then outs[c.sourceIndex] else []
  }

  lemma BroughtLast(cs: seq<Connection>, wires: seq<nat>, m: Records)
    requires wires != [] && forall i | i in wires :: i < |cs|
    ensures Last(wires) < |cs| && (forall i | i in Init(wires) :: i < |cs|)
    ensures Brought(cs, wires, m) == Brought(cs, Init(wires), m) + BroughtBy(cs[Last(wires)], m)
  {
    assert Last(wires) in wires && forall i | i in Init(wires) :: i in wires;
  }

  lemma {:induction false} BroughtAppend(cs: seq<Connection>, a: seq<nat>, b: seq<nat>, m: Records)
    requires (forall i | i in a :: i < |cs|) && (forall i | i in b :: i < |cs|)
    ensures forall i | i in a + b :: i < |cs|
    ensures Brought(cs, a + b, m) == Brought(cs, a, m) + Brought(cs, b, m)
  {
    if b == [] {
      assert a + b == a;
    } else {
      BroughtLast(cs, b, m);
      InitLast(b);
      assert forall i | i in Init(b) :: i in b;
      BroughtAppend(cs, a, Init(b), m);
      AppendInit(a, b);
      BroughtLast(cs, a + b, m);
      Regroup(Brought(cs, a, m), Brought(cs, Init(b), m), BroughtBy(cs[Last(b)], m));
    }
  }

  lemma AppendInit<T>(a: seq<T>, b: seq<T>)
    requires b != []
    ensures Init(a + b) == a + Init(b) && Last(a + b) == Last(b)
  {
  }

  /** Later connections do not change what the earlier ones bring. */
  lemma {:induction false} BroughtPrefix(cs: seq<Connection>, c: Connection, wires: seq<nat>, m: Records)
    requires forall i | i in wires :: i < |cs|
    ensures Brought(cs + [c], wires, m) == Brought(cs, wires, m)
  {
    if wires != [] {
      assert Last(wires) in wires && forall i | i in Init(wires) :: i in wires;
      BroughtPrefix(cs, c, Init(wires), m);
    }
  }

  lemma RoutedPush(cs: seq<Connection>, p: NodeId, n: NodeId, q: Port, outs: seq<seq<Item>>)
    requires cs != []
    ensures
      var c := Last(cs);
      Routed(OutgoingOf(cs, p), n, q, outs) ==
      Routed(OutgoingOf(Init(cs), p), n, q, outs) +
      (if Feeds(c, p, n, q) && 0 <= c.sourceIndex < |outs| then outs[c.sourceIndex] else [])
  {
    var c, before := Last(cs), OutgoingOf(Init(cs), p);
    if c.sourceNode == p {
      assert OutgoingOf(cs, p) == before + [Out(c)] && Init(before + [Out(c)]) == before;
    } else {
      assert OutgoingOf(cs, p) == before;
    }
  }

  lemma {:induction false} RoutedIsBrought(cs: seq<Connection>, p: NodeId, n: NodeId, q: Port, m: Records)
    ensures Routed(OutgoingOf(cs, p), n, q, OutputsOf(m, p)) == Brought(cs, WiresFrom(cs, p, n, q), m)
  {
    if cs != [] {
      var before, c := WiresFrom(Init(cs), p, n, q), Last(cs);
      InitLast(cs);
      RoutedIsBrought(Init(cs), p, n, q, m);
      RoutedPush(cs, p, n, q, OutputsOf(m, p));
      BroughtPrefix(Init(cs), c, before, m);
      assert Brought(cs, before, m) == Brought(Init(cs), before, m);
      if Feeds(c, p, n, q) {
        BroughtPush(cs, before, |cs| - 1, m);
        assert WiresFrom(cs, p, n, q) == before + [|cs| - 1];
      } else {
        assert WiresFrom(cs, p, n, q) == before;
      }
    }
  }

  lemma {:induction false} PortItemsAreBrought(cs: seq<Connection>, order: seq<NodeId>, n: NodeId, q: Port, m: Records)
    ensures PortItems(cs, order, n, q, m) == Brought(cs, WiresInto(cs, order, n, q), m)
  {
    if order != [] {
      PortItemsAreBrought(cs, Init(order), n, q, m);
      RoutedIsBrought(cs, Last(order), n, q, m);
      BroughtAppend(cs, WiresInto(cs, Init(order), n, q), WiresFrom(cs, Last(order), n, q), m);
    }
  }

  // ---- Every execution ------------------------------------------------------------------------------

  /** wires lists every connection into port q of n once, in the order in which they deliver. */
  ghost predicate DeliveryOrder(cs: seq<Connection>, order: seq<NodeId>, n: NodeId, q: Port, wires: seq<nat>) {
    && (forall j: nat :: j in wires <==> j < |cs| && cs[j].targetNode == n && cs[j].targetPort == q)
    && RankedList((i: nat, j: nat) => Earlier(cs, order, i, j), wires)
  }

  /**
   What a recorded node that is not a root ran on: each port held what the connections into it brought,
   each connection once, by completion of their sources and then by declaration, and each connection
   brought the list at its source index of what its source recorded.
   */
  lemma PortDeliveries(s: Setup, e: Execution, n: NodeId, q: Port) returns (inputs: Inputs, wires: seq<nat>)
    requires Faithful(s, e) && WellFormed(s.workflow) && n in e.order && Sources(s.workflow.connections, n) != {}
    ensures n in Shape(s.workflow) && n in e.perNode
    ensures e.perNode[n] == [NodeOutcome(s.workflow, s.impl, NodeOf(s.workflow, n), inputs)]
    ensures inputs == InputsOf(s.workflow, s.seeds, e.order, RecordsOf(e), n)
    ensures DeliveryOrder(s.workflow.connections, e.order, n, q, wires)
    ensures Bucket(inputs, q) == Brought(s.workflow.connections, wires, RecordsOf(e))
  {
    inputs := RanOn(s, e, n);
    wires := PortWires(s.workflow, s.seeds, e.order, RecordsOf(e), n, q);
  }

  lemma PortWires(w: Workflow, seeds: seq<Item>, order: seq<NodeId>, m: Records, n: NodeId, q: Port) returns (wires: seq<nat>)
    requires Distinct(order) && Sources(w.connections, n) != {} && Sources(w.connections, n) <= Elems(order)
    ensures DeliveryOrder(w.connections, order, n, q, wires)
    ensures Bucket(InputsOf(w, seeds, order, m, n), q) == Brought(w.connections, wires, m)
  {
    var cs := w.connections;
    wires := WiresInto(cs, order, n, q);
    WiresIntoIs(cs, order, n, q);
    PortItemsAreBrought(cs, order, n, q, m);
    if q !in FedPorts(cs, order, n) { UnfedPort(cs, order, n, q, m); }
    forall j: nat | j < |cs| && cs[j].targetNode == n && cs[j].targetPort == q
      ensures cs[j].sourceNode in order
    {
      assert cs[j] in cs && cs[j].sourceNode in Sources(cs, n);
    }
  }

  lemma OneRecord(s: Setup, e: Execution, n: NodeId)
    requires Faithful(s, e) && n in e.perNode
    ensures n in RecordsOf(e) && e.perNode[n] == [RecordsOf(e)[n]]
  {
    assert e.perNode[n] == [e.perNode[n][0]];
  }

  lemma RanOn(s: Setup, e: Execution, n: NodeId) returns (inputs: Inputs)
    requires Faithful(s, e) && n in e.order
    ensures n in Shape(s.workflow) && n in e.perNode && Distinct(e.order) && Shape(s.workflow)[n] <= Elems(e.order)
    ensures inputs == InputsOf(s.workflow, s.seeds, e.order, RecordsOf(e), n)
    ensures e.perNode[n] == [NodeOutcome(s.workflow, s.impl, NodeOf(s.workflow, n), inputs)]
  {
    assert n in Elems(e.order);
    ParentsInside(Shape(s.workflow), e.order, n);
    inputs := InputsOf(s.workflow, s.seeds, e.order, RecordsOf(e), n);
    OneRecord(s, e, n);
    assert RecordsOf(e)[n] == Expected(s, e.order, RecordsOf(e), n);
  }

  /** A port fed by one connection alone holds exactly the list at its source index, or nothing where there is none. */
  lemma SingleWireDelivers(s: Setup, e: Execution, k: nat) returns (inputs: Inputs)
    requires Faithful(s, e) && WellFormed(s.workflow) && k < |s.workflow.connections|
    requires var c := s.workflow.connections[k];
             && c.sourceNode in e.order && c.targetNode in e.order
             && forall j | 0 <= j < |s.workflow.connections| && j != k ::
                  s.workflow.connections[j].targetNode != c.targetNode || s.workflow.connections[j].targetPort != c.targetPort
    ensures
      var c := s.workflow.connections[k];
      && c.targetNode in Shape(s.workflow) && c.targetNode in e.perNode && c.sourceNode in e.perNode && |e.perNode[c.sourceNode]| == 1
      && inputs == InputsOf(s.workflow, s.seeds, e.order, RecordsOf(e), c.targetNode)
      && e.perNode[c.targetNode] == [NodeOutcome(s.workflow, s.impl, NodeOf(s.workflow, c.targetNode), inputs)]
      && var outs := e.perNode[c.sourceNode][0].items;
         Bucket(inputs, c.targetPort) == if 0 <= c.sourceIndex < |outs| then outs[c.sourceIndex] else []
  {
    var cs := s.workflow.connections;
    var c := cs[k];
    assert c in cs && c.sourceNode in Sources(cs, c.targetNode) && c.sourceNode in Elems(e.order);
    var wires;
    inputs, wires := PortDeliveries(s, e, c.targetNode, c.targetPort);
    OnlyWire(cs, e.order, c.targetNode, c.targetPort, wires, k);
    assert Init([k]) == [] && Last([k]) == k;
    assert RecordsOf(e)[c.sourceNode] == e.perNode[c.sourceNode][0];
    assert Brought(cs, [], RecordsOf(e)) == [];
  }

  lemma OnlyWire(cs: seq<Connection>, order: seq<NodeId>, n: NodeId, q: Port, wires: seq<nat>, k: nat)
    requires Distinct(order) && DeliveryOrder(cs, order, n, q, wires)
    requires k < |cs| && cs[k].targetNode == n && cs[k].targetPort == q
    requires forall j | 0 <= j < |cs| && j != k :: cs[j].targetNode != n || cs[j].targetPort != q
    ensures wires == [k]
  {
    assert k in wires && forall i | 0 <= i < |wires| :: wires[i] in wires;
    assert forall i | 0 <= i < |wires| :: wires[i] == k;
    assert |wires| > 1 ==> Earlier(cs, order, wires[0], wires[1]);
    assert !Earlier(cs, order, k, k);
  }
}
