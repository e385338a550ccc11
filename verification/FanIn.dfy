/**
 When the order of completion shows in the data: a port lists what its feeders route to
 it in the order they completed, so it shows where two feeders may complete either way.
 */
module FanIn {
  import opened Collections
  import opened Digraphs
  import opened Workflows
  import opened WorkflowGraphs
  import opened Worklists
  import opened Dataflow

  /** Any two feeders of one port are joined by a path. */
  ghost predicate FeedersJoined(w: Workflow) {
    forall n, q, x, y | x in Feeders(w.connections, n, q) && y in Feeders(w.connections, n, q) ::
      Reaches(Shape(w), x, y) || Reaches(Shape(w), y, x)
  }

  // ---- Joined feeders complete in one order ------------------------------------------------

  /** A path forces its ends into order. */
  lemma PathForcesOrder(g: Digraph, order: seq<NodeId>, x: NodeId, y: NodeId)
    requires Legal(g, order) && Reaches(g, x, y)
    ensures !Before(order, y, x)
  {
    if Before(order, y, x) {
      var i, j :| 0 <= i < j < |order| && order[i] == y && order[j] == x;
      var p :| Connects(g, p, x, y);
      PathRises(g, order, p, i);
      assert false;
    }
  }

  lemma JoinedListAlike(w: Workflow, a: seq<NodeId>, b: seq<NodeId>, n: NodeId, q: Port)
    requires WellFormed(w) && FeedersJoined(w)
    requires Topological(Shape(w), a) && Topological(Shape(w), b)
    ensures Filter(a, Feeders(w.connections, n, q)) == Filter(b, Feeders(w.connections, n, q))
  {
    var g, feeders := Shape(w), Feeders(w.connections, n, q);
    var fa, fb := Filter(a, feeders), Filter(b, feeders);
    FilterElems(a, feeders);
    FilterElems(b, feeders);
    forall x, y
      ensures !(Before(fa, x, y) && Before(fb, y, x))
    {
      if Before(fa, x, y) && Before(fb, y, x) {
        assert x in Elems(fa) && y in Elems(fa);
        FilterBefore(a, feeders, x, y);
        FilterBefore(b, feeders, y, x);
        if Reaches(g, x, y) {
          PathForcesOrder(g, b, x, y);
        } else {
          PathForcesOrder(g, a, y, x);
        }
      }
    }
    SameListing(fa, fb);
  }

  // ---- Feeders that no path joins complete either way ------------------------------------------

  lemma ReachesSelf(g: Digraph, x: NodeId)
    requires x in g
    ensures Reaches(g, x, x)
  {
    assert Connects(g, [x], x, x);
  }

  ghost function Ancestors(g: Digraph, y: NodeId): set<NodeId> {
    set n | n in g && Reaches(g, n, y)
  }

  lemma AncestorsClosed(g: Digraph, y: NodeId, n: NodeId)
    requires Closed(g) && n in Ancestors(g, y)
    ensures g[n] <= Ancestors(g, y)
  {
    var p :| Connects(g, p, n, y);
    forall x | x in g[n]
      ensures Reaches(g, x, y)
    {
      var longer := [x] + p;
      assert Connects(g, longer, x, y);
    }
  }

  /** The part of a legal order inside a set closed under parents is legal. */
  lemma {:induction false} InnerLegal(g: Digraph, order: seq<NodeId>, inner: set<NodeId>)
    requires Legal(g, order) && forall n | n in inner && n in g :: g[n] <= inner
    ensures Legal(g, Filter(order, inner))
  {
    if order != [] {
      var n, before := Last(order), Init(order);
      LegalPrefix(g, order, |before|);
      InnerLegal(g, before, inner);
      FilterElems(before, inner);
      InitLast(order);
      if n in inner {
        assert g[n] <= Elems(before) * inner;
        assert n !in Elems(Filter(before, inner));
        LegalPush(g, Filter(before, inner), n);
      } else {
        assert Filter(order, inner) == Filter(before, inner);
      }
    }
  }

  lemma OuterReady(g: Digraph, order: seq<NodeId>, inner: set<NodeId>, outer: set<NodeId>, front: seq<NodeId>)
    requires order != [] && Legal(g, order) && inner !! outer && Elems(order) <= inner + outer
    requires Elems(order) * inner <= Elems(front) <= inner && Last(order) in outer
    ensures
      var done := front + Filter(Init(order), outer);
      Last(order) in g && Last(order) !in done && g[Last(order)] <= Elems(done)
  {
    var n, before := Last(order), Init(order);
    InitLast(order);
    ElemsInit(order);
    FilterElems(before, outer);
    ElemsAppend(front, Filter(before, outer));
    assert n !in Elems(front + Filter(before, outer));
    assert g[n] <= Elems(before);
  }

  /** Moving a set closed under parents to the front keeps an order legal. */
  lemma {:induction false} PartitionLegal(g: Digraph, order: seq<NodeId>, inner: set<NodeId>, outer: set<NodeId>, front: seq<NodeId>)
    requires Legal(g, order) && Legal(g, front) && inner !! outer && Elems(order) <= inner + outer
    requires Elems(order) * inner <= Elems(front) <= inner
    ensures Legal(g, front + Filter(order, outer))
  {
    if order == [] {
      assert front + [] == front;
    } else {
      var n, before := Last(order), Init(order);
      LegalPrefix(g, order, |before|);
      ElemsInit(order);
      InitLast(order);
      PartitionLegal(g, before, inner, outer, front);
      var done := front + Filter(before, outer);
      if n in outer {
        OuterReady(g, order, inner, outer, front);
        LegalPush(g, done, n);
        assert front + Filter(order, outer) == done + [n];
      } else {
        assert Filter(order, outer) == Filter(before, outer);
      }
    }
  }

  /** Some topological order completes y before every node that is not its ancestor. */
  lemma AncestorsFirst(g: Digraph, x: NodeId, y: NodeId) returns (order: seq<NodeId>)
    requires Closed(g) && Acyclic(g) && x in g && y in g && !Reaches(g, x, y)
    ensures Topological(g, order) && Before(order, y, x)
  {
    var any := CompleteOrder(g, []);
    var inner := Ancestors(g, y);
    var outer := g.Keys - inner;
    forall n | n in inner && n in g
      ensures g[n] <= inner
    {
      AncestorsClosed(g, y, n);
    }
    InnerLegal(g, any, inner);
    FilterElems(any, inner);
    FilterElems(any, outer);
    PartitionLegal(g, any, inner, outer, Filter(any, inner));
    order := Filter(any, inner) + Filter(any, outer);
    ElemsAppend(Filter(any, inner), Filter(any, outer));
    assert Elems(order) == g.Keys;
    ReachesSelf(g, y);
    assert y in Elems(Filter(any, inner)) && x in Elems(Filter(any, outer));
    BeforeAppend(Filter(any, inner), Filter(any, outer), y, x);
  }

  ghost predicate AllListAlike(w: Workflow) {
    forall a, b | Topological(Shape(w), a) && Topological(Shape(w), b) :: SameFanIn(w.connections, a, b)
  }

  /**
   Every port lists its feeders alike in all topological orders exactly when any two
   feeders of one port are joined by a path.
   */
  lemma ListedAlikeIff(w: Workflow)
    requires WellFormed(w) && Acyclic(Shape(w))
    ensures AllListAlike(w) <==> FeedersJoined(w)
  {
    var g, cs := Shape(w), w.connections;
    if FeedersJoined(w) {
      forall a, b, n, q | Topological(g, a) && Topological(g, b) && n in a && n in b
        ensures Filter(a, Feeders(cs, n, q)) == Filter(b, Feeders(cs, n, q))
      {
        JoinedListAlike(w, a, b, n, q);
      }
    } else {
      var n, q, x, y :| x in Feeders(cs, n, q) && y in Feeders(cs, n, q) && !Reaches(g, x, y) && !Reaches(g, y, x);
      FeedersExist(w, n, q);
      var a, b := EitherWay(w, x, y);
      assert n in Elems(a) && n in Elems(b);
      FilterElems(a, Feeders(cs, n, q));
      FilterBefore(a, Feeders(cs, n, q), x, y);
      FilterBefore(b, Feeders(cs, n, q), y, x);
      NotBothWays(Filter(a, Feeders(cs, n, q)), x, y);
      assert !SameFanIn(cs, a, b);
    }
  }

  lemma FeedersExist(w: Workflow, n: NodeId, q: Port)
    requires WellFormed(w) && Feeders(w.connections, n, q) != {}
    ensures n in Shape(w) && Feeders(w.connections, n, q) <= Shape(w)[n] && Feeders(w.connections, n, q) <= Shape(w).Keys
  {
  }

  /** Two nodes that no path joins complete in either order. */
  lemma EitherWay(w: Workflow, x: NodeId, y: NodeId) returns (a: seq<NodeId>, b: seq<NodeId>)
    requires WellFormed(w) && Acyclic(Shape(w)) && x in Shape(w) && y in Shape(w)
    requires !Reaches(Shape(w), x, y) && !Reaches(Shape(w), y, x)
    ensures Topological(Shape(w), a) && Before(a, x, y)
    ensures Topological(Shape(w), b) && Before(b, y, x)
  {
    ShapeClosed(w);
    a := AncestorsFirst(Shape(w), y, x);
    b := AncestorsFirst(Shape(w), x, y);
  }

  // ---- Data ---------------------------------------------------------------------------------------

  /** m is what running every node in the given order records. */
  ghost predicate CompleteRun(s: Setup, order: seq<NodeId>, m: Records) {
    Topological(Shape(s.workflow), order) && Solves(s, order, m)
  }

  /** With joined feeders every complete legal run records the same data. */
  lemma OrderIndependence(s: Setup, a: seq<NodeId>, b: seq<NodeId>, ma: Records, mb: Records)
    requires Ready(s) && FeedersJoined(s.workflow)
    requires CompleteRun(s, a, ma) && CompleteRun(s, b, mb)
    ensures ma == mb
  {
    ListedAlikeIff(s.workflow);
    Determinacy(s, a, b, ma, mb);
    MapsEqual(ma, mb);
  }

  // ---- Feeders that no path joins show their order ------------------------------------------------

  /** An item that no pin, seed or disabled node can make up. */
  function MarkOf(x: NodeId): Item {
    Item("{}", Some(NodeError(x, "mark")))
  }

  /** x and y emit their marks on every output; n emits what port q received; the others emit nothing. */
  ghost function Telling(x: NodeId, y: NodeId, n: NodeId, q: Port, width: nat): Implementation {
    (node: Node, inputs: Inputs) =>
      if node.id == x || node.id == y then Output(seq(width, _ => [MarkOf(node.id)]))
      else if node.id == n then Output([Bucket(inputs, q)])
      else Output([])
  }

  ghost predicate Unmarked(items: seq<Item>) {
    forall i | 0 <= i < |items| :: items[i].error.None?
  }

  ghost predicate UnmarkedOutputs(outputs: seq<seq<Item>>) {
    forall i | 0 <= i < |outputs| :: Unmarked(outputs[i])
  }

  /** x decides what it emits, and a connection carries some output of it to port q of n. */
  ghost predicate Speaks(w: Workflow, x: NodeId, n: NodeId, q: Port) {
    && x in Shape(w) && x !in w.pinData && !NodeOf(w, x).disabled
    && exists c :: c in w.connections && c.sourceNode == x && c.targetNode == n && c.targetPort == q && c.sourceIndex >= 0
  }

  /** What n records depends on its port q. */
  ghost predicate Listens(w: Workflow, n: NodeId, q: Port) {
    n in Shape(w) && n !in w.pinData && (NodeOf(w, n).disabled ==> q == MAIN_PORT)
  }

  lemma {:induction false} RoutedUnmarked(edges: seq<OutgoingEdge>, n: NodeId, q: Port, outputs: seq<seq<Item>>)
    requires UnmarkedOutputs(outputs)
    ensures Unmarked(Routed(edges, n, q, outputs))
  {
    if edges != [] { RoutedUnmarked(Init(edges), n, q, outputs); }
  }

  lemma {:induction false} PortUnmarked(cs: seq<Connection>, order: seq<NodeId>, n: NodeId, q: Port, m: Records)
    requires forall p | p in order && p in Sources(cs, n) :: UnmarkedOutputs(OutputsOf(m, p))
    ensures Unmarked(PortItems(cs, order, n, q, m))
  {
    if order != [] {
      var p := Last(order);
      assert p in order;
      PortUnmarked(cs, Init(order), n, q, m);
      if p in Sources(cs, n) {
        RoutedUnmarked(OutgoingOf(cs, p), n, q, OutputsOf(m, p));
      } else {
        OutgoingTargets(cs, p, n);
        RoutedNothing(OutgoingOf(cs, p), n, q, OutputsOf(m, p));
      }
    }
  }

  lemma BucketUnmarked(w: Workflow, order: seq<NodeId>, m: Records, n: NodeId, q: Port)
    requires forall p | p in Sources(w.connections, n) :: UnmarkedOutputs(OutputsOf(m, p))
    ensures Unmarked(Bucket(InputsOf(w, [], order, m, n), q))
  {
    PortUnmarked(w.connections, order, n, q, m);
  }

  /** Until x or y completes, no mark is recorded. */
  lemma {:induction false} UnmarkedBefore(s: Setup, x: NodeId, y: NodeId, n: NodeId, q: Port, width: nat,
                                          order: seq<NodeId>, m: Records, k: nat)
    requires s == Setup(s.workflow, [], Telling(x, y, n, q, width)) && Legal(Shape(s.workflow), order) && Solves(s, order, m)
    requires k < |order| && forall i | 0 <= i <= k :: order[i] != x && order[i] != y
    ensures UnmarkedOutputs(OutputsOf(m, order[k]))
    decreases k
  {
    var w, node := s.workflow, order[k];
    assert node in Elems(order);
    forall p | p in Sources(w.connections, node)
      ensures UnmarkedOutputs(OutputsOf(m, p))
    {
      assert p in Elems(order[..k]);
      var j :| 0 <= j < k && order[j] == p;
      UnmarkedBefore(s, x, y, n, q, width, order, m, j);
    }
    BucketUnmarked(w, order, m, node, q);
    BucketUnmarked(w, order, m, node, MAIN_PORT);
    assert m[node] == Expected(s, order, m, node);
    QuietOutcome(s, x, y, n, q, width, NodeOf(w, node), InputsOf(w, [], order, m, node));
  }

  lemma QuietOutcome(s: Setup, x: NodeId, y: NodeId, n: NodeId, q: Port, width: nat, node: Node, inputs: Inputs)
    requires s.impl == Telling(x, y, n, q, width) && node.id != x && node.id != y
    requires Unmarked(Bucket(inputs, q)) && Unmarked(Bucket(inputs, MAIN_PORT))
    ensures UnmarkedOutputs(NodeOutcome(s.workflow, s.impl, node, inputs).items)
  {
  }

  ghost predicate Marked(outputs: seq<seq<Item>>, x: NodeId, width: nat) {
    |outputs| == width && forall i | 0 <= i < width :: outputs[i] == [MarkOf(x)]
  }

  /** What a speaking feeder routes to the port starts with its mark. */
  lemma {:induction false} RoutedMarks(edges: seq<OutgoingEdge>, n: NodeId, q: Port, outputs: seq<seq<Item>>, x: NodeId, width: nat)
    requires Marked(outputs, x, width)
    ensures forall i | 0 <= i < |Routed(edges, n, q, outputs)| :: Routed(edges, n, q, outputs)[i] == MarkOf(x)
    ensures (exists e :: e in edges && e.target == n && e.targetPort == q && 0 <= e.sourceIndex < width) ==>
              Routed(edges, n, q, outputs) != []
  {
    if edges != [] {
      InitLast(edges);
      assert forall e | e in edges :: e in Init(edges) || e == Last(edges);
      RoutedMarks(Init(edges), n, q, outputs, x, width);
    }
  }

  lemma {:induction false} EdgeListed(cs: seq<Connection>, c: Connection)
    requires c in cs
    ensures Out(c) in OutgoingOf(cs, c.sourceNode)
  {
    InitLast(cs);
    if c in Init(cs) { EdgeListed(Init(cs), c); }
  }

  lemma {:induction false} PortItemsSplit(cs: seq<Connection>, a: seq<NodeId>, b: seq<NodeId>, n: NodeId, q: Port, m: Records)
    ensures PortItems(cs, a + b, n, q, m) == PortItems(cs, a, n, q, m) + PortItems(cs, b, n, q, m)
  {
    if b == [] {
      assert a + b == a;
    } else {
      assert a + b == (a + Init(b)) + [Last(b)];
      PortItemsSplit(cs, a, Init(b), n, q, m);
      PortItemsPush(cs, a + Init(b), Last(b), n, q, m);
      Regroup(PortItems(cs, a, n, q, m), PortItems(cs, Init(b), n, q, m), Routed(OutgoingOf(cs, Last(b)), n, q, OutputsOf(m, Last(b))));
    }
  }

  /** The first marked item is the mark of x. */
  ghost predicate FirstMarkAt(items: seq<Item>, x: NodeId, at: nat) {
    at < |items| && items[at] == MarkOf(x) && forall i | 0 <= i < at :: items[i].error.None?
  }

  lemma FirstMarkDecides(items: seq<Item>, x: NodeId, y: NodeId, i: nat, j: nat)
    requires FirstMarkAt(items, x, i) && FirstMarkAt(items, y, j)
    ensures x == y
  {
  }

  ghost predicate Covers(cs: seq<Connection>, width: nat) {
    forall c | c in cs :: c.sourceIndex < width
  }

  lemma {:induction false} SomeWidth(cs: seq<Connection>) returns (width: nat)
    ensures Covers(cs, width)
  {
    if cs == [] {
      width := 0;
    } else {
      width := SomeWidth(Init(cs));
      InitLast(cs);
      if Last(cs).sourceIndex >= width { width := Last(cs).sourceIndex + 1; }
    }
  }

  lemma SpeakerRoutes(w: Workflow, x: NodeId, n: NodeId, q: Port, width: nat, outputs: seq<seq<Item>>)
    requires Speaks(w, x, n, q) && Covers(w.connections, width) && Marked(outputs, x, width)
    ensures
      var routed := Routed(OutgoingOf(w.connections, x), n, q, outputs);
      routed != [] && routed[0] == MarkOf(x)
  {
    var c :| c in w.connections && c.sourceNode == x && c.targetNode == n && c.targetPort == q && c.sourceIndex >= 0;
    EdgeListed(w.connections, c);
    RoutedMarks(OutgoingOf(w.connections, x), n, q, outputs, x, width);
  }

  lemma SpeakerOutputs(s: Setup, x: NodeId, y: NodeId, n: NodeId, q: Port, width: nat, speaker: NodeId, order: seq<NodeId>, m: Records)
    requires s.impl == Telling(x, y, n, q, width) && Solves(s, order, m) && speaker in order
    requires (speaker == x || speaker == y) && Speaks(s.workflow, speaker, n, q)
    ensures Marked(OutputsOf(m, speaker), speaker, width)
  {
    assert speaker in Elems(order);
    assert m[speaker] == Expected(s, order, m, speaker);
  }

  /** The feeder that completes first leaves the first mark on the port. */
  lemma FirstFeederShows(s: Setup, x: NodeId, y: NodeId, n: NodeId, q: Port, width: nat, order: seq<NodeId>, m: Records, first: NodeId, k: nat)
    returns (at: nat)
    requires s == Setup(s.workflow, [], Telling(x, y, n, q, width)) && Covers(s.workflow.connections, width)
    requires Legal(Shape(s.workflow), order) && Solves(s, order, m)
    requires (first == x || first == y) && Speaks(s.workflow, first, n, q)
    requires k < |order| && order[k] == first && forall i | 0 <= i < k :: order[i] != x && order[i] != y
    ensures FirstMarkAt(PortItems(s.workflow.connections, order, n, q, m), first, at)
  {
    var cs := s.workflow.connections;
    QuietBefore(s, x, y, n, q, width, order, m, k);
    SpeakerOutputs(s, x, y, n, q, width, first, order, m);
    SpeakerRoutes(s.workflow, first, n, q, width, OutputsOf(m, first));
    at := |PortItems(cs, order[..k], n, q, m)|;
    PortFrom(cs, order, k, n, q, m);
    MarkFollows(PortItems(cs, order[..k], n, q, m), Routed(OutgoingOf(cs, first), n, q, OutputsOf(m, first)),
                PortItems(cs, order, n, q, m), first);
  }

  lemma MarkFollows(quiet: seq<Item>, marked: seq<Item>, all: seq<Item>, x: NodeId)
    requires Unmarked(quiet) && marked != [] && marked[0] == MarkOf(x) && quiet + marked <= all
    ensures FirstMarkAt(all, x, |quiet|)
  {
    assert all[|quiet|] == (quiet + marked)[|quiet|];
    assert forall i | 0 <= i < |quiet| :: all[i] == (quiet + marked)[i];
  }

  /** Before the first of the two feeders completes, the port has received no mark. */
  lemma QuietBefore(s: Setup, x: NodeId, y: NodeId, n: NodeId, q: Port, width: nat, order: seq<NodeId>, m: Records, k: nat)
    requires s == Setup(s.workflow, [], Telling(x, y, n, q, width)) && Legal(Shape(s.workflow), order) && Solves(s, order, m)
    requires k <= |order| && forall i | 0 <= i < k :: order[i] != x && order[i] != y
    ensures Unmarked(PortItems(s.workflow.connections, order[..k], n, q, m))
  {
    forall p | p in order[..k]
      ensures UnmarkedOutputs(OutputsOf(m, p))
    {
      var j :| 0 <= j < k && order[j] == p;
      UnmarkedBefore(s, x, y, n, q, width, order, m, j);
    }
    PortUnmarked(s.workflow.connections, order[..k], n, q, m);
  }

  lemma PortFrom(cs: seq<Connection>, order: seq<NodeId>, k: nat, n: NodeId, q: Port, m: Records)
    requires k < |order|
    ensures
      var before, all := PortItems(cs, order[..k], n, q, m), PortItems(cs, order, n, q, m);
      before + Routed(OutgoingOf(cs, order[k]), n, q, OutputsOf(m, order[k])) <= all
  {
    assert order == order[..k + 1] + order[k + 1..];
    PortItemsSplit(cs, order[..k + 1], order[k + 1..], n, q, m);
    TakeNext(order, k);
    PortItemsPush(cs, order[..k], order[k], n, q, m);
  }

  /** The listener records what its port received. */
  lemma ListenerRecords(s: Setup, x: NodeId, y: NodeId, n: NodeId, q: Port, width: nat, order: seq<NodeId>, m: Records)
    requires s == Setup(s.workflow, [], Telling(x, y, n, q, width)) && WellFormed(s.workflow)
    requires n != x && n != y && Listens(s.workflow, n, q) && x in Feeders(s.workflow.connections, n, q)
    requires CompleteRun(s, order, m)
    ensures n in m && m[n].items == [PortItems(s.workflow.connections, order, n, q, m)]
  {
    var w := s.workflow;
    assert n in Elems(order);
    assert m[n] == Expected(s, order, m, n);
    var c :| c in w.connections && c.targetNode == n && c.targetPort == q && c.sourceNode == x;
    EdgeListed(w.connections, c);
    assert c.sourceNode in Ids(w.nodes);
    assert x in Elems(order) && x in order;
    assert q in FedPorts(w.connections, order, n);
    assert x in Sources(w.connections, n);
  }

  lemma FirstOf(order: seq<NodeId>, x: NodeId, y: NodeId) returns (k: nat)
    requires Distinct(order) && Before(order, x, y)
    ensures k < |order| && order[k] == x && forall i | 0 <= i < k :: order[i] != x && order[i] != y
  {
    var i, j :| 0 <= i < j < |order| && order[i] == x && order[j] == y;
    k := i;
  }

  lemma ChildIsOther(g: Digraph, x: NodeId, n: NodeId)
    requires Closed(g) && Acyclic(g) && n in g && x in g[n]
    ensures n != x
  {
    assert n == x ==> IsCycle(g, [x, x]);
  }

  lemma RunsEitherWay(s: Setup, x: NodeId, y: NodeId) returns (a: seq<NodeId>, b: seq<NodeId>, ma: Records, mb: Records)
    requires Ready(s) && x in Shape(s.workflow) && y in Shape(s.workflow)
    requires !Reaches(Shape(s.workflow), x, y) && !Reaches(Shape(s.workflow), y, x)
    ensures CompleteRun(s, a, ma) && CompleteRun(s, b, mb) && Before(a, x, y) && Before(b, y, x)
  {
    a, b := EitherWay(s.workflow, x, y);
    assert forall n | n in a :: n in Elems(a);
    assert forall n | n in b :: n in Elems(b);
    ReplaySolves(s, a);
    ReplaySolves(s, b);
    ma, mb := Replay(s, a), Replay(s, b);
  }

  /** The listener records the mark of the feeder that completed first, ahead of any other. */
  lemma ListenerTells(s: Setup, x: NodeId, y: NodeId, n: NodeId, q: Port, width: nat, order: seq<NodeId>, m: Records,
                      first: NodeId, second: NodeId) returns (at: nat)
    requires s == Setup(s.workflow, [], Telling(x, y, n, q, width)) && Covers(s.workflow.connections, width)
    requires WellFormed(s.workflow) && Acyclic(Shape(s.workflow)) && CompleteRun(s, order, m)
    requires Speaks(s.workflow, x, n, q) && Speaks(s.workflow, y, n, q) && Listens(s.workflow, n, q)
    requires (first == x && second == y) || (first == y && second == x)
    requires Before(order, first, second)
    ensures n in m && |m[n].items| == 1 && FirstMarkAt(m[n].items[0], first, at)
  {
    var w := s.workflow;
    ShapeClosed(w);
    assert x in Feeders(w.connections, n, q) && y in Feeders(w.connections, n, q);
    ChildIsOther(Shape(w), x, n);
    ChildIsOther(Shape(w), y, n);
    ListenerRecords(s, x, y, n, q, width, order, m);
    var k := FirstOf(order, first, second);
    at := FirstFeederShows(s, x, y, n, q, width, order, m, first, k);
  }

  /**
   Two feeders of one port that no path joins: for some node implementations, two legal
   orders record different data at the node they feed.
   */
  lemma OrderShows(w: Workflow, x: NodeId, y: NodeId, n: NodeId, q: Port)
    returns (s: Setup, a: seq<NodeId>, b: seq<NodeId>, ma: Records, mb: Records)
    requires WellFormed(w) && Acyclic(Shape(w))
    requires Speaks(w, x, n, q) && Speaks(w, y, n, q) && Listens(w, n, q)
    requires !Reaches(Shape(w), x, y) && !Reaches(Shape(w), y, x)
    ensures s.workflow == w && CompleteRun(s, a, ma) && CompleteRun(s, b, mb)
    ensures n in ma && n in mb && ma[n].items != mb[n].items
  {
    ReachesSelf(Shape(w), x);
    var width := SomeWidth(w.connections);
    s := Setup(w, [], Telling(x, y, n, q, width));
    a, b, ma, mb := RunsEitherWay(s, x, y);
    var ia := ListenerTells(s, x, y, n, q, width, a, ma, x, y);
    var jb := ListenerTells(s, x, y, n, q, width, b, mb, y, x);
    if ma[n].items == mb[n].items {
      FirstMarkDecides(ma[n].items[0], x, y, ia, jb);
    }
  }

  // ---- The exact condition ---------------------------------------------------------------------------

  /** Every node decides what it emits, and every connection carries an output. */
  ghost predicate Unmasked(w: Workflow) {
    && (forall n | n in Shape(w) :: n !in w.pinData && !NodeOf(w, n).disabled)
    && (forall c | c in w.connections :: c.sourceIndex >= 0)
  }

  /** Whatever the nodes do, the order of completion does not show in the data. */
  ghost predicate OrderBlind(w: Workflow) {
    forall s: Setup, a, b, ma, mb | s.workflow == w && CompleteRun(s, a, ma) && CompleteRun(s, b, mb) :: ma == mb
  }

  /** Without pins and disabled nodes, the order never shows exactly when feeders of one port are joined. */
  lemma OrderBlindIff(w: Workflow)
    requires WellFormed(w) && Acyclic(Shape(w)) && Unmasked(w)
    ensures OrderBlind(w) <==> FeedersJoined(w)
  {
    if FeedersJoined(w) {
      forall s: Setup, a, b, ma, mb | s.workflow == w && CompleteRun(s, a, ma) && CompleteRun(s, b, mb)
        ensures ma == mb
      {
        OrderIndependence(s, a, b, ma, mb);
      }
    } else {
      var n, q, x, y :|
        && x in Feeders(w.connections, n, q) && y in Feeders(w.connections, n, q)
        && !Reaches(Shape(w), x, y) && !Reaches(Shape(w), y, x);
      FeedersExist(w, n, q);
      var s, a, b, ma, mb := OrderShows(w, x, y, n, q);
    }
  }

  // ---- An instance ------------------------------------------------------------------------------------

  function Wire(source: NodeId, target: NodeId): Connection {
    Connection(source, target, MAIN_PORT, 0, MAIN_PORT, 0)
  }

  function Noop(id: NodeId): Node {
    Node(id, "noop", map[], false, false)
  }

  /** Two roots that feed one port. */
  function TwoFeeders(): Workflow {
    Workflow("wf", "pr", [Noop("a"), Noop("b"), Noop("c")], [Wire("a", "c"), Wire("b", "c")], map[])
  }

  lemma TwoFeedersShape()
    ensures Shape(TwoFeeders()) == map["a" := {}, "b" := {}, "c" := {"a", "b"}]
    ensures WellFormed(TwoFeeders())
  {
    var w := TwoFeeders();
    assert Ids(w.nodes) == ["a", "b", "c"];
    assert w.connections[0] in w.connections && w.connections[1] in w.connections;
    assert Sources(w.connections, "a") == {} && Sources(w.connections, "b") == {};
    assert Sources(w.connections, "c") == {"a", "b"};
  }

  lemma TwoFeedersUnmasked()
    ensures Unmasked(TwoFeeders())
  {
    var w := TwoFeeders();
    forall n | n in Shape(w)
      ensures n !in w.pinData && !NodeOf(w, n).disabled
    {
      assert NodeOf(w, n) in w.nodes;
    }
  }

  /** The condition can fail: two roots on one port. */
  lemma TwoFeedersShow()
    ensures WellFormed(TwoFeeders()) && Acyclic(Shape(TwoFeeders())) && Unmasked(TwoFeeders())
    ensures !FeedersJoined(TwoFeeders()) && !OrderBlind(TwoFeeders())
  {
    var w := TwoFeeders();
    var g, cs := Shape(w), w.connections;
    TwoFeedersShape();
    TwoFeedersUnmasked();
    TwoRootsApart(g, "a", "b");
    TwoRootsApart(g, "b", "a");
    TwoFeedersAcyclic(g);
    assert cs[0] in cs && cs[1] in cs;
    assert "a" in Feeders(cs, "c", MAIN_PORT) && "b" in Feeders(cs, "c", MAIN_PORT);
    OrderBlindIff(w);
  }

  lemma TwoRootsApart(g: Digraph, x: NodeId, y: NodeId)
    requires y in g && g[y] == {} && x != y
    ensures !Reaches(g, x, y)
  {
    forall p | IsPath(g, p) && |p| > 1
      ensures Last(p) != y
    {
      assert p[|p| - 2] in g[p[|p| - 1]];
    }
  }

  lemma TwoFeedersAcyclic(g: Digraph)
    requires g == map["a" := {}, "b" := {}, "c" := {"a", "b"}]
    ensures Acyclic(g)
  {
    forall c | IsPath(g, c) && |c| >= 2
      ensures c[0] != "c" && Last(c) == "c"
    {
      assert c[0] in g[c[1]] && c[|c| - 2] in g[c[|c| - 1]];
    }
  }
}
