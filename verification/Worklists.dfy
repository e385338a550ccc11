/**
 The readiness worklist that Kahn's sort and the executor both run: a queue of
 nodes whose parents are all done, drained from the front.
 */
module Worklists {
  import opened Collections
  import opened Digraphs

  /** done is a legal order and the queue holds exactly the other nodes whose parents are all done. */
  ghost predicate Worklist(g: Digraph, done: seq<NodeId>, queue: seq<NodeId>) {
    && Closed(g)
    && Legal(g, done)
    && Distinct(done + queue)
    && (forall n | n in queue :: n in g)
    && (forall n | n in g :: n in done + queue <==> g[n] <= Elems(done))
  }

  ghost predicate Sorted(lv: map<NodeId, nat>, s: seq<NodeId>) {
    && (forall i | 0 <= i < |s| :: s[i] in lv)
    && (forall i, j | 0 <= i < j < |s| :: lv[s[i]] <= lv[s[j]])
  }

  /** The highest level the queue may hold once done is finished. */
  ghost function NextLevel(lv: map<NodeId, nat>, done: seq<NodeId>): nat {
    if done == [] || Last(done) !in lv then 0 else lv[Last(done)] + 1
  }

  /** Levels never fall along done + queue, and the queue spans at most the next level. */
  ghost predicate Levelled(g: Digraph, lv: map<NodeId, nat>, done: seq<NodeId>, queue: seq<NodeId>) {
    && IsLevels(g, lv)
    && Sorted(lv, done + queue)
    && (forall n | n in queue :: n in lv && lv[n] <= NextLevel(lv, done))
  }

  /** The nodes that finishing current makes ready. */
  ghost function Released(g: Digraph, done: seq<NodeId>, current: NodeId): set<NodeId> {
    set n | n in g && current in g[n] && g[n] <= Elems(done) + {current}
  }

  lemma StartWorklist(g: Digraph, roots: seq<NodeId>)
    requires Closed(g) && Distinct(roots)
    requires Elems(roots) == set n | n in g && g[n] == {}
    ensures Worklist(g, [], roots)
  {
    assert [] + roots == roots;
    forall n | n in g
      ensures n in [] + roots <==> g[n] <= Elems<NodeId>([])
    {
      assert n in Elems(roots) <==> g[n] == {};
    }
    forall n | n in roots
      ensures n in g
    {
      assert n in Elems(roots);
    }
  }

  lemma FrontNotDone(g: Digraph, order: seq<NodeId>, queue: seq<NodeId>)
    requires Worklist(g, order, queue) && queue != []
    ensures queue[0] in g && queue[0] !in order
  {
    assert (order + queue)[|order|] == queue[0];
    assert forall i | 0 <= i < |order| :: (order + queue)[i] == order[i];
  }

  lemma FrontIsReady(g: Digraph, order: seq<NodeId>, queue: seq<NodeId>)
    requires Worklist(g, order, queue) && queue != []
    ensures queue[0] in g && g[queue[0]] <= Elems(order)
  {
    assert (order + queue)[|order|] == queue[0];
    assert queue[0] in queue && queue[0] in order + queue;
  }

  /** What finishing the front releases was neither done nor queued. */
  lemma ReleasedIsNew(g: Digraph, done: seq<NodeId>, queue: seq<NodeId>, released: seq<NodeId>)
    requires Worklist(g, done, queue) && queue != []
    requires Elems(released) == Released(g, done, queue[0])
    ensures Elems(done + queue) !! Elems(released)
    ensures forall n | n in released :: n in g
  {
    FrontNotDone(g, done, queue);
    forall n | n in Elems(released)
      ensures n in g && n !in Elems(done + queue)
    {
      assert queue[0] in g[n] && queue[0] !in Elems(done);
    }
    assert forall n | n in released :: n in Elems(released);
  }

  lemma ReadyIff(g: Digraph, done: seq<NodeId>, queue: seq<NodeId>, released: seq<NodeId>, n: NodeId)
    requires Worklist(g, done, queue) && queue != [] && n in g
    requires Elems(released) == Released(g, done, queue[0])
    ensures n in (done + queue) + released <==> g[n] <= Elems(done + [queue[0]])
  {
    ElemsPush(done, queue[0]);
    assert n in released <==> n in Elems(released);
  }

  /** One round: finish the front of the queue and append what it releases. */
  lemma StepWorklist(g: Digraph, done: seq<NodeId>, queue: seq<NodeId>, released: seq<NodeId>)
    requires Worklist(g, done, queue) && queue != []
    requires Distinct(released) && Elems(released) == Released(g, done, queue[0])
    ensures Worklist(g, done + [queue[0]], queue[1..] + released)
  {
    FrontNotDone(g, done, queue);
    FrontIsReady(g, done, queue);
    LegalPush(g, done, queue[0]);
    ReleasedIsNew(g, done, queue, released);
    DistinctAppend(done + queue, released);
    assert (done + [queue[0]]) + (queue[1..] + released) == (done + queue) + released;
    forall n | n in g
      ensures n in (done + queue) + released <==> g[n] <= Elems(done + [queue[0]])
    {
      ReadyIff(g, done, queue, released, n);
    }
  }

  lemma ReleasedLevel(g: Digraph, lv: map<NodeId, nat>, done: seq<NodeId>, queue: seq<NodeId>, n: NodeId)
    requires Worklist(g, done, queue) && queue != [] && Levelled(g, lv, done, queue)
    requires n in Released(g, done, queue[0])
    ensures forall p | p in g[n] :: p in lv && lv[p] <= lv[queue[0]]
  {
    var all := done + queue;
    assert all[|done|] == queue[0];
    forall p | p in g[n]
      ensures p in lv && lv[p] <= lv[queue[0]]
    {
      if p in Elems(done) {
        var k :| 0 <= k < |done| && done[k] == p;
        assert all[k] == p;
      }
    }
  }

  /** Gives every released node the next level. */
  ghost function RaiseLevels(lv: map<NodeId, nat>, released: set<NodeId>, level: nat): map<NodeId, nat> {
    map n | n in lv.Keys + released :: if n in lv then lv[n] else level
  }

  lemma RaisedLevels(g: Digraph, lv: map<NodeId, nat>, released: set<NodeId>, current: NodeId)
    requires IsLevels(g, lv) && current in lv
    requires forall n | n in released :: n in g && current in g[n]
    requires forall n, p | n in released && p in g[n] :: p in lv && lv[p] <= lv[current]
    ensures IsLevels(g, RaiseLevels(lv, released, lv[current] + 1))
  {
    var lv' := RaiseLevels(lv, released, lv[current] + 1);
    RaisedValues(lv, released, lv[current] + 1);
    forall n | n in lv'
      ensures LevelAt(g, lv', n)
    {
      if n in lv {
        assert LevelAt(g, lv, n);
        LevelKept(g, lv, lv', n);
      } else {
        LevelRaised(g, lv', n, current);
      }
    }
  }

  lemma RaisedValues(lv: map<NodeId, nat>, released: set<NodeId>, level: nat)
    ensures RaiseLevels(lv, released, level).Keys == lv.Keys + released
    ensures forall n | n in lv :: RaiseLevels(lv, released, level)[n] == lv[n]
    ensures forall n | n in released && n !in lv :: RaiseLevels(lv, released, level)[n] == level
  {
  }

  lemma LevelKept(g: Digraph, lv: map<NodeId, nat>, lv': map<NodeId, nat>, n: NodeId)
    requires n in g && n in lv && LevelAt(g, lv, n)
    requires forall x | x in lv :: x in lv' && lv'[x] == lv[x]
    ensures LevelAt(g, lv', n)
  {
    if lv[n] > 0 {
      var p :| p in g[n] && p in lv && lv[p] + 1 == lv[n];
      assert p in lv' && lv'[p] + 1 == lv'[n];
    }
  }

  lemma LevelRaised(g: Digraph, lv: map<NodeId, nat>, n: NodeId, current: NodeId)
    requires n in g && n in lv && current in g[n] && current in lv && lv[n] == lv[current] + 1
    requires forall p | p in g[n] :: p in lv && lv[p] <= lv[current]
    ensures LevelAt(g, lv, n)
  {
  }

  lemma SortedAppend(lv: map<NodeId, nat>, s: seq<NodeId>, t: seq<NodeId>, level: nat)
    requires Sorted(lv, s)
    requires forall n | n in s :: lv[n] <= level
    requires forall n | n in t :: n in lv && lv[n] == level
    ensures Sorted(lv, s + t)
  {
    forall i | 0 <= i < |s + t|
      ensures (s + t)[i] in lv
    {
      if i >= |s| { assert (s + t)[i] in t; }
    }
    forall i, j | 0 <= i < j < |s + t|
      ensures lv[(s + t)[i]] <= lv[(s + t)[j]]
    {
      if j >= |s| {
        assert (s + t)[j] in t;
        assert (s + t)[i] in s || (s + t)[i] in t;
      }
    }
  }

  lemma NextLevelCaps(lv: map<NodeId, nat>, done: seq<NodeId>, queue: seq<NodeId>)
    requires Sorted(lv, done + queue) && queue != []
    requires forall n | n in queue :: n in lv && lv[n] <= NextLevel(lv, done)
    ensures forall n | n in done + queue :: n in lv && lv[n] <= lv[queue[0]] + 1
  {
    var all := done + queue;
    assert all[|done|] == queue[0];
    if done != [] {
      assert all[|done| - 1] == Last(done);
    }
    forall n | n in all
      ensures n in lv && lv[n] <= lv[queue[0]] + 1
    {
      var k :| 0 <= k < |all| && all[k] == n;
      assert k >= |done| ==> n in queue;
    }
  }

  lemma ReleasedLevels(g: Digraph, lv: map<NodeId, nat>, done: seq<NodeId>, queue: seq<NodeId>, released: seq<NodeId>)
    requires Worklist(g, done, queue) && queue != [] && Levelled(g, lv, done, queue)
    requires Elems(released) == Released(g, done, queue[0]) && Elems(released) <= lv.Keys
    ensures forall n | n in released :: n in lv && lv[n] == lv[queue[0]] + 1
  {
    forall n | n in released
      ensures n in lv && lv[n] == lv[queue[0]] + 1
    {
      assert n in Elems(released);
      ReleasedLevel(g, lv, done, queue, n);
      assert LevelAt(g, lv, n);
    }
  }

  /** With a level map that covers the released nodes, level order survives a round. */
  lemma StepLevelled(g: Digraph, lv: map<NodeId, nat>, done: seq<NodeId>, queue: seq<NodeId>, released: seq<NodeId>)
    requires Worklist(g, done, queue) && queue != [] && Levelled(g, lv, done, queue)
    requires Elems(released) == Released(g, done, queue[0]) && Elems(released) <= lv.Keys
    ensures Levelled(g, lv, done + [queue[0]], queue[1..] + released)
  {
    ReleasedLevels(g, lv, done, queue, released);
    AppendLevelled(g, lv, done, queue, released);
  }

  lemma AppendLevelled(g: Digraph, lv: map<NodeId, nat>, done: seq<NodeId>, queue: seq<NodeId>, released: seq<NodeId>)
    requires queue != [] && Levelled(g, lv, done, queue)
    requires forall n | n in released :: n in lv && lv[n] == lv[queue[0]] + 1
    ensures Levelled(g, lv, done + [queue[0]], queue[1..] + released)
  {
    var current := queue[0];
    NextLevelCaps(lv, done, queue);
    SortedAppend(lv, done + queue, released, lv[current] + 1);
    assert (done + [current]) + (queue[1..] + released) == (done + queue) + released;
    assert Last(done + [current]) == current;
    forall n | n in queue[1..] + released
      ensures n in lv && lv[n] <= NextLevel(lv, done + [current])
    {
      assert n in released || n in done + queue;
    }
  }

  /** The queue cannot drain early: with full levels, an empty queue means every node is done. */
  lemma DrainedMeansDone(g: Digraph, lv: map<NodeId, nat>, done: seq<NodeId>)
    requires Worklist(g, done, []) && FullLevels(g, lv)
    ensures Topological(g, done)
  {
    forall n | n in g
      ensures n in done
    {
      DrainedMeansDoneAt(g, lv, done, n);
    }
    assert Elems(done) == g.Keys;
  }

  lemma {:induction false} DrainedMeansDoneAt(g: Digraph, lv: map<NodeId, nat>, done: seq<NodeId>, n: NodeId)
    requires Worklist(g, done, []) && FullLevels(g, lv) && n in g
    ensures n in done
    decreases lv[n]
  {
    assert LevelAt(g, lv, n);
    forall p | p in g[n]
      ensures p in Elems(done)
    {
      DrainedMeansDoneAt(g, lv, done, p);
    }
    assert done + [] == done;
  }

  // ---- What a drained worklist leaves behind is exactly what hangs below a cycle

  /** Walking up parents that are not done, a path of any length ends at n. */
  lemma {:induction false} StuckPath(g: Digraph, done: seq<NodeId>, n: NodeId, length: nat) returns (p: seq<NodeId>)
    requires Worklist(g, done, []) && n in g && n !in done
    ensures IsPath(g, p) && Last(p) == n && |p| == length + 1
    decreases length
  {
    if length == 0 {
      p := [n];
    } else {
      assert done + [] == done;
      var parent :| parent in g[n] && parent !in Elems(done);
      var q := StuckPath(g, done, parent, length - 1);
      p := q + [n];
      forall i | 0 < i < |p|
        ensures p[i - 1] in g[p[i]]
      {
        if i == |q| { assert p[i - 1] == Last(q); }
      }
    }
  }

  lemma StuckIsBelowCycle(g: Digraph, done: seq<NodeId>, n: NodeId)
    requires Worklist(g, done, []) && n in g && n !in done
    ensures BelowCycle(g, n)
  {
    var p := StuckPath(g, done, n, |g.Keys|);
    var i, j := Pigeonhole(p, g.Keys);
    var c := p[i..j + 1];
    PathSlice(g, p, i, j + 1);
    assert c[0] == Last(c);
    PathSlice(g, p, i, |p|);
    assert BelowWitness(g, n, c, p[i..]);
  }

  /** A drained worklist has done exactly the nodes that no cycle reaches. */
  lemma DrainedIffClear(g: Digraph, done: seq<NodeId>, n: NodeId)
    requires Worklist(g, done, []) && n in g
    ensures n in done <==> !BelowCycle(g, n)
  {
    if n in done {
      LegalAvoidsCycles(g, done, n);
    } else {
      StuckIsBelowCycle(g, done, n);
    }
  }

  /** A drained worklist has done everything exactly when the graph has no cycle. */
  lemma DrainedIffAcyclic(g: Digraph, done: seq<NodeId>)
    requires Worklist(g, done, [])
    ensures Elems(done) == g.Keys <==> Acyclic(g)
  {
    if Elems(done) == g.Keys {
      forall c | IsCycle(g, c)
        ensures false
      {
        assert c[0] in Elems(done);
        DrainedIffClear(g, done, c[0]);
        assert BelowWitness(g, c[0], c, c);
      }
    } else {
      var n :| n in g && n !in Elems(done);
      DrainedIffClear(g, done, n);
    }
  }

  // ---- First in, first out: the order is determined -----------------------------

  /** rootTie ranks the roots; tie(p, x, y) ranks x before y among the nodes that p releases. */
  datatype Ties = Ties(rootTie: (NodeId, NodeId) -> bool, tie: (NodeId, NodeId, NodeId) -> bool)

  ghost predicate Asymmetric(t: Ties) {
    && (forall x, y :: !(t.rootTie(x, y) && t.rootTie(y, x)))
    && (forall p, x, y :: !(t.tie(p, x, y) && t.tie(p, y, x)))
  }

  /** The last parent of x to complete stands at position i. */
  ghost predicate ReleasedAt(g: Digraph, order: seq<NodeId>, x: NodeId, i: nat) {
    i < |order| && x in g && order[i] in g[x] && g[x] <= Elems(order[..i + 1])
  }

  /** What two nodes of which the first stands earlier must satisfy. */
  ghost predicate Ranked(g: Digraph, t: Ties, order: seq<NodeId>, x: NodeId, y: NodeId) {
    && x in g && y in g
    && (g[y] == {} ==> g[x] == {} && t.rootTie(x, y))
    && (forall i: nat, j: nat | ReleasedAt(g, order, x, i) && ReleasedAt(g, order, y, j) :: i < j || (i == j && t.tie(order[i], x, y)))
  }

  /** Roots stand first, by their ranks; the others by when their last parent completed, then by rank. */
  ghost predicate Fifo(g: Digraph, t: Ties, order: seq<NodeId>) {
    forall a, b | 0 <= a < b < |order| :: Ranked(g, t, order, order[a], order[b])
  }

  lemma StartFifo(g: Digraph, t: Ties, roots: seq<NodeId>)
    requires Elems(roots) == (set n | n in g && g[n] == {}) && RankedList(t.rootTie, roots)
    ensures Fifo(g, t, [] + roots)
  {
    var all := [] + roots;
    assert all == roots;
    forall a, b | 0 <= a < b < |all|
      ensures Ranked(g, t, all, all[a], all[b])
    {
      assert all[a] in Elems(roots) && all[b] in Elems(roots);
      assert t.rootTie(roots[a], roots[b]);
      RootsRanked(g, t, all, all[a], all[b]);
    }
  }

  lemma RootsRanked(g: Digraph, t: Ties, order: seq<NodeId>, x: NodeId, y: NodeId)
    requires x in g && y in g && g[x] == {} && g[y] == {} && t.rootTie(x, y)
    ensures Ranked(g, t, order, x, y)
  {
  }

  lemma NotAgain<T>(s: seq<T>, t: seq<T>, i: nat)
    requires Distinct(s + t) && |s| <= i < |s + t|
    ensures (s + t)[i] !in Elems(s)
  {
    assert forall k | 0 <= k < |s| :: (s + t)[k] == s[k];
  }

  lemma ReleasedBefore(g: Digraph, done: seq<NodeId>, more: seq<NodeId>, x: NodeId, i: nat)
    requires x in g && g[x] <= Elems(done) && Distinct(done + more)
    ensures ReleasedAt(g, done + more, x, i) <==> ReleasedAt(g, done, x, i)
  {
    var all := done + more;
    if i < |done| {
      assert all[..i + 1] == done[..i + 1];
    } else if i < |all| {
      NotAgain(done, more, i);
    }
  }

  /** A node that the front releases has it as its last parent. */
  lemma ReleasedByFront(g: Digraph, done: seq<NodeId>, queue: seq<NodeId>, x: NodeId, i: nat)
    requires Worklist(g, done, queue) && queue != [] && x in Released(g, done, queue[0])
    ensures ReleasedAt(g, done + [queue[0]], x, i) ==> i == |done|
  {
    FrontNotDone(g, done, queue);
    assert i < |done| ==> (done + [queue[0]])[..i + 1] == done[..i + 1];
    assert i < |done| ==> queue[0] !in Elems(done[..i + 1]);
  }

  lemma OldRanks(g: Digraph, t: Ties, done: seq<NodeId>, queue: seq<NodeId>, released: seq<NodeId>, x: NodeId, y: NodeId)
    requires Worklist(g, done, queue) && Distinct((done + queue) + released)
    requires x in done + queue && y in done + queue
    requires Ranked(g, t, done + queue, x, y)
    ensures Ranked(g, t, (done + queue) + released, x, y)
  {
    assert (done + queue) + released == done + (queue + released);
    forall i: nat, j: nat | ReleasedAt(g, (done + queue) + released, x, i) && ReleasedAt(g, (done + queue) + released, y, j)
      ensures i < j || (i == j && t.tie(((done + queue) + released)[i], x, y))
    {
      ReleasedBefore(g, done, queue + released, x, i);
      ReleasedBefore(g, done, queue + released, y, j);
      ReleasedBefore(g, done, queue, x, i);
      ReleasedBefore(g, done, queue, y, j);
    }
  }

  lemma NewRanks(g: Digraph, t: Ties, done: seq<NodeId>, queue: seq<NodeId>, released: seq<NodeId>, x: NodeId, y: NodeId)
    requires Worklist(g, done, queue) && queue != [] && Distinct((done + queue) + released)
    requires y in Released(g, done, queue[0]) && x in g
    requires x in done + queue || (x in Released(g, done, queue[0]) && t.tie(queue[0], x, y))
    ensures Ranked(g, t, (done + queue) + released, x, y)
  {
    var all, current := (done + queue) + released, queue[0];
    assert all == done + (queue + released) && all == (done + [current]) + (queue[1..] + released);
    ElemsPush(done, current);
    forall i: nat, j: nat | ReleasedAt(g, all, x, i) && ReleasedAt(g, all, y, j)
      ensures i < j || (i == j && t.tie(all[i], x, y))
    {
      ReleasedBefore(g, done + [current], queue[1..] + released, y, j);
      ReleasedByFront(g, done, queue, y, j);
      if x in done + queue {
        ReleasedBefore(g, done, queue + released, x, i);
      } else {
        ReleasedBefore(g, done + [current], queue[1..] + released, x, i);
        ReleasedByFront(g, done, queue, x, i);
      }
    }
  }

  /** A round that queues what it releases by rank keeps the order first in, first out. */
  lemma StepFifo(g: Digraph, t: Ties, done: seq<NodeId>, queue: seq<NodeId>, released: seq<NodeId>)
    requires Worklist(g, done, queue) && queue != [] && Fifo(g, t, done + queue)
    requires Distinct(released) && Elems(released) == Released(g, done, queue[0])
    requires RankedList((x, y) => t.tie(queue[0], x, y), released)
    ensures Fifo(g, t, (done + [queue[0]]) + (queue[1..] + released))
  {
    var before := done + queue;
    var all := before + released;
    assert (done + [queue[0]]) + (queue[1..] + released) == all;
    ReleasedIsNew(g, done, queue, released);
    DistinctAppend(before, released);
    forall a, b | 0 <= a < b < |all|
      ensures Ranked(g, t, all, all[a], all[b])
    {
      if b < |before| {
        OldRanks(g, t, done, queue, released, before[a], before[b]);
      } else {
        assert all[b] == released[b - |before|] && all[b] in Elems(released);
        if a < |before| {
          InWorklist(g, done, queue, before[a]);
        } else {
          assert all[a] == released[a - |before|] && all[a] in Elems(released);
        }
        NewRanks(g, t, done, queue, released, all[a], all[b]);
      }
    }
  }

  lemma InWorklist(g: Digraph, done: seq<NodeId>, queue: seq<NodeId>, x: NodeId)
    requires Worklist(g, done, queue) && x in done + queue
    ensures x in g
  {
    assert x in done || x in queue;
  }

  lemma FifoDecides(g: Digraph, t: Ties, order: seq<NodeId>, a: nat, b: nat)
    requires Fifo(g, t, order) && a < b < |order|
    ensures Ranked(g, t, order, order[a], order[b])
  {
  }

  /** When the last parent of a node completes depends only on the part of the order before the node. */
  lemma ReleasedSame(g: Digraph, a: seq<NodeId>, b: seq<NodeId>, k: nat, x: NodeId, i: nat)
    requires k <= |a| && k <= |b| && a[..k] == b[..k] && Distinct(a) && Distinct(b)
    requires x in g && g[x] <= Elems(a[..k])
    ensures ReleasedAt(g, a, x, i) <==> ReleasedAt(g, b, x, i)
  {
    assert a == a[..k] + a[k..] && b == b[..k] + b[k..];
    ReleasedBefore(g, a[..k], a[k..], x, i);
    ReleasedBefore(g, b[..k], b[k..], x, i);
  }

  lemma {:induction false} LastParent(g: Digraph, order: seq<NodeId>, x: NodeId) returns (i: nat)
    requires x in g && g[x] != {} && g[x] <= Elems(order)
    ensures ReleasedAt(g, order, x, i)
  {
    var n, before := Last(order), Init(order);
    ElemsInit(order);
    assert order[..|order|] == order;
    if n in g[x] {
      i := |order| - 1;
    } else {
      i := LastParent(g, before, x);
      assert order[..i + 1] == before[..i + 1];
    }
  }

  /** Two orders that agree on the first k nodes rank the nodes that may follow alike. */
  lemma RanksAgree(g: Digraph, t: Ties, a: seq<NodeId>, b: seq<NodeId>, k: nat, x: NodeId, y: NodeId)
    requires Asymmetric(t) && k <= |a| && k <= |b| && a[..k] == b[..k] && Distinct(a) && Distinct(b)
    requires x in g && y in g && g[x] <= Elems(a[..k]) && g[y] <= Elems(a[..k])
    ensures !(Ranked(g, t, a, x, y) && Ranked(g, t, b, y, x))
  {
    if g[x] != {} && g[y] != {} {
      var i := LastParent(g, a[..k], x);
      var j := LastParent(g, a[..k], y);
      assert a == a[..k] + a[k..];
      ReleasedBefore(g, a[..k], a[k..], x, i);
      ReleasedBefore(g, a[..k], a[k..], y, j);
      ReleasedSame(g, a, b, k, x, i);
      ReleasedSame(g, a, b, k, y, j);
      assert a[i] == a[..k][i] && b[i] == b[..k][i];
    }
  }

  lemma FifoNext(g: Digraph, t: Ties, a: seq<NodeId>, b: seq<NodeId>, k: nat)
    requires Asymmetric(t) && Topological(g, a) && Topological(g, b) && Fifo(g, t, a) && Fifo(g, t, b)
    requires k < |a| && k < |b| && a[..k] == b[..k]
    ensures a[k] == b[k]
  {
    if a[k] != b[k] {
      var i := LaterIn(g, a, b, k);
      var j := LaterIn(g, b, a, k);
      FifoDecides(g, t, a, k, j);
      FifoDecides(g, t, b, k, i);
      RanksAgree(g, t, a, b, k, a[k], b[k]);
    }
  }

  /** Where two orders part, the node of the first stands later in the second. */
  lemma LaterIn(g: Digraph, a: seq<NodeId>, b: seq<NodeId>, k: nat) returns (i: nat)
    requires Topological(g, a) && Topological(g, b) && k < |a| && k < |b| && a[..k] == b[..k] && a[k] != b[k]
    ensures k < i < |b| && b[i] == a[k]
  {
    assert a[k] in Elems(b);
    i :| 0 <= i < |b| && b[i] == a[k];
    assert forall m | 0 <= m < k :: a[m] == a[..k][m] && b[m] == b[..k][m];
  }

  /** Sequences of one length that never part are equal. */
  lemma {:induction false} NeverPart<T>(a: seq<T>, b: seq<T>, k: nat)
    requires k <= |a| == |b| && forall i | 0 <= i < |a| && a[..i] == b[..i] :: a[i] == b[i]
    ensures a[..k] == b[..k]
  {
    if k > 0 {
      NeverPart(a, b, k - 1);
      TakeNext(a, k - 1);
      TakeNext(b, k - 1);
    }
  }

  /** There is at most one topological order that is first in, first out. */
  lemma FifoUnique(g: Digraph, t: Ties, a: seq<NodeId>, b: seq<NodeId>)
    requires Asymmetric(t) && Topological(g, a) && Topological(g, b) && Fifo(g, t, a) && Fifo(g, t, b)
    ensures a == b
  {
    DistinctSize(a);
    DistinctSize(b);
    forall i | 0 <= i < |a| && a[..i] == b[..i]
      ensures a[i] == b[i]
    {
      FifoNext(g, t, a, b, i);
    }
    NeverPart(a, b, |a|);
    TakeAll(a, |a|);
    TakeAll(b, |a|);
  }

  // ---- Acyclic graphs have topological orders and levels ---------------------

  /** Any legal order of an acyclic graph can be completed. */
  lemma {:induction false} CompleteOrder(g: Digraph, done: seq<NodeId>) returns (order: seq<NodeId>)
    requires Closed(g) && Acyclic(g) && Legal(g, done)
    ensures Topological(g, order)
    decreases |g.Keys| - |done|
  {
    LegalFits(g, done);
    if n :| n in g && n !in done && g[n] <= Elems(done) {
      LegalPush(g, done, n);
      LegalFits(g, done + [n]);
      order := CompleteOrder(g, done + [n]);
    } else {
      order := done;
      assert done + [] == done;
      forall n | n in done
        ensures n in g && g[n] <= Elems(done)
      {
        ParentsInside(g, done, n);
      }
      DrainedIffAcyclic(g, done);
    }
  }

  lemma LegalFits(g: Digraph, order: seq<NodeId>)
    requires Legal(g, order)
    ensures Elems(order) <= g.Keys && |order| <= |g.Keys|
  {
    DistinctSize(order);
    SubsetSize(Elems(order), g.Keys);
  }

  /** The nodes of a legal order can be levelled. */
  lemma {:induction false} LevelsAlong(g: Digraph, order: seq<NodeId>) returns (lv: map<NodeId, nat>)
    requires Legal(g, order)
    ensures IsLevels(g, lv) && lv.Keys == Elems(order)
  {
    if order == [] {
      lv := map[];
    } else {
      var n := Last(order);
      LegalPrefix(g, order, |order| - 1);
      lv := LevelsAlong(g, Init(order));
      ElemsInit(order);
      assert g[n] <= lv.Keys;
      if g[n] == {} {
        lv := LevelRoot(g, lv, n);
      } else {
        var top := Highest(lv, g[n]);
        RaisedLevels(g, lv, {n}, top);
        lv := RaiseLevels(lv, {n}, lv[top] + 1);
      }
    }
  }

  lemma LevelRoot(g: Digraph, lv: map<NodeId, nat>, n: NodeId) returns (lv': map<NodeId, nat>)
    requires IsLevels(g, lv) && n in g && g[n] == {}
    ensures IsLevels(g, lv') && lv'.Keys == lv.Keys + {n}
  {
    lv' := RaiseLevels(lv, {n}, 0);
    forall x | x in lv'
      ensures LevelAt(g, lv', x)
    {
      if x in lv {
        assert LevelAt(g, lv, x);
        LevelKept(g, lv, lv', x);
      }
    }
  }

  lemma {:induction false} Highest(lv: map<NodeId, nat>, nodes: set<NodeId>) returns (top: NodeId)
    requires nodes != {} && nodes <= lv.Keys
    ensures top in nodes && forall n | n in nodes :: lv[n] <= lv[top]
  {
    top :| top in nodes;
    if nodes != {top} {
      var other := Highest(lv, nodes - {top});
      if lv[other] > lv[top] { top := other; }
    }
  }

  /** Longest-path depth is defined on every node of an acyclic graph. */
  lemma AcyclicHasLevels(g: Digraph) returns (lv: map<NodeId, nat>)
    requires Closed(g) && Acyclic(g)
    ensures FullLevels(g, lv)
  {
    var order := CompleteOrder(g, []);
    lv := LevelsAlong(g, order);
  }

  // ---- Two level-sorted topological orders line up ---------------------------

  lemma LevelNotBefore(lv: map<NodeId, nat>, a: seq<NodeId>, b: seq<NodeId>, i: nat)
    requires Sorted(lv, a) && Sorted(lv, b) && Distinct(a) && Elems(a) == Elems(b)
    requires i < |a| && i < |b|
    ensures lv[a[i]] >= lv[b[i]]
  {
    if lv[a[i]] < lv[b[i]] {
      forall n | n in Elems(a[..i + 1])
        ensures n in Elems(b[..i])
      {
        var k :| 0 <= k < i + 1 && a[..i + 1][k] == n;
        assert n in Elems(b);
        var m :| 0 <= m < |b| && b[m] == n;
        assert lv[a[k]] <= lv[a[i]];
        assert m < i;
        assert b[..i][m] == n;
      }
      DistinctSize(a[..i + 1]);
      SubsetSize(Elems(a[..i + 1]), Elems(b[..i]));
      ElemsAtMost(b[..i]);
      assert false;
    }
  }

  lemma {:induction false} ElemsAtMost<T>(s: seq<T>)
    ensures |Elems(s)| <= |s|
  {
    if s != [] {
      ElemsAtMost(Init(s));
      ElemsInit(s);
    }
  }

  /**
   Two level-sorted orders of the same nodes hold, at every position, nodes of
   the same level; so each level occupies the same stretch of both.
   */
  lemma LevelsLineUp(g: Digraph, lv: map<NodeId, nat>, a: seq<NodeId>, b: seq<NodeId>)
    requires Topological(g, a) && Topological(g, b)
    requires Sorted(lv, a) && Sorted(lv, b)
    ensures |a| == |b|
    ensures forall i | 0 <= i < |a| :: lv[a[i]] == lv[b[i]]
  {
    DistinctSize(a);
    DistinctSize(b);
    forall i | 0 <= i < |a|
      ensures lv[a[i]] == lv[b[i]]
    {
      LevelNotBefore(lv, a, b, i);
      LevelNotBefore(lv, b, a, i);
    }
  }
}
