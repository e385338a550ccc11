/** Finite directed graphs given by the set of parents of every node. */
module Digraphs {
  import opened Collections

  type NodeId = string

  /** The unique parents of every node. */
  type Digraph = map<NodeId, set<NodeId>>

  ghost predicate Closed(g: Digraph) {
    forall n | n in g :: g[n] <= g.Keys
  }

  // ---- Paths and cycles -----------------------------------------------------

  ghost predicate IsPath(g: Digraph, p: seq<NodeId>) {
    && |p| > 0
    && (forall i | 0 <= i < |p| :: p[i] in g)
    && (forall i | 0 < i < |p| :: p[i - 1] in g[p[i]])
  }

  ghost predicate IsCycle(g: Digraph, c: seq<NodeId>) {
    IsPath(g, c) && |c| >= 2 && c[0] == Last(c)
  }

  ghost predicate Acyclic(g: Digraph) {
    forall c :: !IsCycle(g, c)
  }

  ghost predicate Connects(g: Digraph, p: seq<NodeId>, a: NodeId, b: NodeId) {
    IsPath(g, p) && p[0] == a && Last(p) == b
  }

  /** A path, possibly of one node, leads from a to b. */
  ghost predicate Reaches(g: Digraph, a: NodeId, b: NodeId) {
    exists p :: Connects(g, p, a, b)
  }

  ghost predicate BelowWitness(g: Digraph, n: NodeId, c: seq<NodeId>, p: seq<NodeId>) {
    IsCycle(g, c) && Connects(g, p, c[0], n)
  }

  /** n lies on a cycle or can be reached from one. */
  ghost predicate BelowCycle(g: Digraph, n: NodeId) {
    exists c, p :: BelowWitness(g, n, c, p)
  }

  lemma PathSlice(g: Digraph, p: seq<NodeId>, i: nat, j: nat)
    requires IsPath(g, p) && i < j <= |p|
    ensures IsPath(g, p[i..j])
  {
    var q := p[i..j];
    forall k | 0 < k < |q|
      ensures q[k - 1] in g[q[k]]
    {
      assert q[k] == p[i + k] && q[k - 1] == p[i + k - 1];
    }
  }

  // ---- Legal orders ---------------------------------------------------------

  /** Every node of the order comes after all of its parents, and only once. */
  ghost predicate Legal(g: Digraph, order: seq<NodeId>) {
    && Distinct(order)
    && (forall i | 0 <= i < |order| :: order[i] in g && g[order[i]] <= Elems(order[..i]))
  }

  /** A legal order that mentions every node. */
  ghost predicate Topological(g: Digraph, order: seq<NodeId>) {
    Legal(g, order) && Elems(order) == g.Keys
  }

  lemma LegalPush(g: Digraph, order: seq<NodeId>, n: NodeId)
    requires Legal(g, order) && n in g && n !in order && g[n] <= Elems(order)
    ensures Legal(g, order + [n])
  {
    var bigger := order + [n];
    forall i | 0 <= i < |bigger|
      ensures bigger[i] in g && g[bigger[i]] <= Elems(bigger[..i])
    {
      if i < |order| {
        assert bigger[..i] == order[..i];
      } else {
        assert bigger[..i] == order;
      }
    }
  }

  lemma LegalPrefix(g: Digraph, order: seq<NodeId>, k: nat)
    requires Legal(g, order) && k <= |order|
    ensures Legal(g, order[..k])
  {
    forall i | 0 <= i < k
      ensures order[..k][i] in g && g[order[..k][i]] <= Elems(order[..k][..i])
    {
      assert order[..k][..i] == order[..i];
    }
  }

  lemma ParentsInside(g: Digraph, order: seq<NodeId>, n: NodeId)
    requires Legal(g, order) && n in order
    ensures n in g && g[n] <= Elems(order)
  {
    var k :| 0 <= k < |order| && order[k] == n;
    assert Elems(order[..k]) <= Elems(order);
  }

  /** The last node of a legal order is a parent of no node in it. */
  lemma LastFeedsNone(g: Digraph, order: seq<NodeId>, n: NodeId, x: NodeId)
    requires Legal(g, order + [n]) && x in order + [n]
    ensures n !in order && x in g && n !in g[x]
  {
    var all := order + [n];
    assert all[|order|] == n;
    assert n !in order by { assert forall i | 0 <= i < |order| :: all[i] == order[i]; }
    var k :| 0 <= k < |all| && all[k] == x;
    NotAmongFirst(order, n, k);
  }

  lemma NotAmongFirst<T>(s: seq<T>, x: T, k: nat)
    requires x !in s && k <= |s|
    ensures x !in Elems((s + [x])[..k])
  {
    assert (s + [x])[..k] == s[..k];
  }

  /** Along a legal order a path that ends inside the order rises strictly in position. */
  lemma {:induction false} PathRises(g: Digraph, order: seq<NodeId>, p: seq<NodeId>, at: nat)
    requires Legal(g, order) && IsPath(g, p)
    requires at < |order| && order[at] == Last(p)
    ensures exists k :: 0 <= k <= at && order[k] == p[0] && (|p| > 1 ==> k < at)
    decreases |p|
  {
    if |p| == 1 {
      assert order[at] == p[0];
    } else {
      var parent := p[|p| - 2];
      assert parent in g[Last(p)];
      assert parent in Elems(order[..at]);
      var k :| 0 <= k < at && order[..at][k] == parent;
      PathSlice(g, p, 0, |p| - 1);
      PathRises(g, order, Init(p), k);
      var j :| 0 <= j <= k && order[j] == Init(p)[0];
      assert Init(p)[0] == p[0];
      assert order[j] == p[0];
    }
  }

  /** No node of a legal order can be reached from a cycle. */
  lemma LegalAvoidsCycles(g: Digraph, order: seq<NodeId>, n: NodeId)
    requires Legal(g, order) && n in order
    ensures !BelowCycle(g, n)
  {
    if BelowCycle(g, n) {
      var c, p :| BelowWitness(g, n, c, p);
      var at :| 0 <= at < |order| && order[at] == n;
      PathRises(g, order, p, at);
      var k :| 0 <= k <= at && order[k] == p[0];
      PathRises(g, order, c, k);
      assert false;
    }
  }

  /** Descendants of the last node of a legal order are never in the order. */
  lemma DescendantsOutside(g: Digraph, order: seq<NodeId>, p: seq<NodeId>)
    requires Legal(g, order) && order != []
    requires IsPath(g, p) && |p| >= 2 && p[0] == Last(order)
    ensures Last(p) !in order
  {
    if Last(p) in order {
      var at :| 0 <= at < |order| && order[at] == Last(p);
      PathRises(g, order, p, at);
      assert false;
    }
  }

  // ---- Levels: longest-path depth -------------------------------------------

  ghost predicate LevelAt(g: Digraph, lv: map<NodeId, nat>, n: NodeId)
    requires n in g && n in lv
  {
    && (forall p | p in g[n] :: p in lv && lv[p] < lv[n])
    && (lv[n] > 0 ==> exists p :: p in g[n] && p in lv && lv[p] + 1 == lv[n])
  }

  /** lv gives every node it mentions one more than the highest level among its parents. */
  ghost predicate IsLevels(g: Digraph, lv: map<NodeId, nat>) {
    lv.Keys <= g.Keys && forall n {:trigger LevelAt(g, lv, n)} | n in lv :: LevelAt(g, lv, n)
  }

  ghost predicate FullLevels(g: Digraph, lv: map<NodeId, nat>) {
    IsLevels(g, lv) && lv.Keys == g.Keys
  }

  /** No path that ends at n is longer than its level. */
  lemma {:induction false} LevelBoundsPaths(g: Digraph, lv: map<NodeId, nat>, p: seq<NodeId>)
    requires IsLevels(g, lv) && IsPath(g, p) && Last(p) in lv
    ensures |p| - 1 <= lv[Last(p)]
    decreases |p|
  {
    if |p| > 1 {
      assert p[|p| - 2] in g[Last(p)];
      assert LevelAt(g, lv, Last(p));
      PathSlice(g, p, 0, |p| - 1);
      LevelBoundsPaths(g, lv, Init(p));
    }
  }

  /** Some path that ends at n is exactly as long as its level. */
  lemma {:induction false} LevelIsReached(g: Digraph, lv: map<NodeId, nat>, n: NodeId) returns (p: seq<NodeId>)
    requires IsLevels(g, lv) && n in lv
    ensures IsPath(g, p) && Last(p) == n && |p| - 1 == lv[n]
    decreases lv[n]
  {
    assert LevelAt(g, lv, n);
    if lv[n] == 0 {
      p := [n];
    } else {
      var parent :| parent in g[n] && parent in lv && lv[parent] + 1 == lv[n];
      var q := LevelIsReached(g, lv, parent);
      p := q + [n];
      forall i | 0 < i < |p|
        ensures p[i - 1] in g[p[i]]
      {
        if i == |q| { assert p[i - 1] == Last(q); }
      }
    }
  }

  /** Levels are the longest-path depth, so any two level maps agree. */
  lemma LevelsUnique(g: Digraph, a: map<NodeId, nat>, b: map<NodeId, nat>, n: NodeId)
    requires IsLevels(g, a) && IsLevels(g, b) && n in a && n in b
    ensures a[n] == b[n]
  {
    var p := LevelIsReached(g, a, n);
    LevelBoundsPaths(g, b, p);
    var q := LevelIsReached(g, b, n);
    LevelBoundsPaths(g, a, q);
  }
}
