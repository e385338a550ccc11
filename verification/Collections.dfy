/** Sequence facts shared by every component of the model. */
module Collections {

  datatype Option<+T> = None | Some(value: T)

  datatype Result<+T, +E> = Success(value: T) | Failure(error: E)

  function Elems<T>(s: seq<T>): set<T> {
    set x | x in s
  }

  ghost predicate Distinct<T>(s: seq<T>) {
    forall i, j | 0 <= i < j < |s| :: s[i] != s[j]
  }

  /** Some listing of a set: every element once, in any order. */
  ghost predicate IsListing<T>(list: seq<T>, elements: set<T>) {
    Elems(list) == elements && Distinct(list)
  }

  function Last<T>(s: seq<T>): T
    requires s != []
  {
    s[|s| - 1]
  }

  function Init<T>(s: seq<T>): seq<T>
    requires s != []
  {
    s[..|s| - 1]
  }

  function Flatten<T>(ss: seq<seq<T>>): seq<T> {
    if ss == [] then [] else Flatten(Init(ss)) + Last(ss)
  }

  /** Keeps the elements of s that lie in keep, in order. */
  function Filter<T(==)>(s: seq<T>, keep: set<T>): seq<T> {
    if s == [] then []
    else Filter(Init(s), keep) + (if Last(s) in keep then [Last(s)] else [])
  }

  /** The state after k steps. */
  ghost function Folded<S>(step: (S, nat) -> S, start: S, k: nat): S {
    if k == 0 then start else step(Folded(step, start, k - 1), k - 1)
  }

  /** What the start meets and every step keeps holds after any number of steps. */
  lemma {:induction false} FoldKeeps<S(!new)>(step: (S, nat) -> S, start: S, inv: (S, nat) -> bool, n: nat, k: nat)
    requires k <= n && inv(start, 0)
    requires forall s, i: nat | i < n && inv(s, i) :: inv(step(s, i), i + 1)
    ensures inv(Folded(step, start, k), k)
  {
    if k > 0 { FoldKeeps(step, start, inv, n, k - 1); }
  }

  lemma TakeNext<T>(s: seq<T>, i: nat)
    requires i < |s|
    ensures s[..i + 1] == s[..i] + [s[i]]
  {
  }

  lemma TakeAll<T>(s: seq<T>, i: nat)
    requires i == |s|
    ensures s[..i] == s
  {
  }

  lemma Regroup<T>(x: seq<T>, y: seq<T>, z: seq<T>)
    ensures (x + y) + z == x + (y + z)
  {
  }

  lemma InitLast<T>(s: seq<T>)
    requires s != []
    ensures s == Init(s) + [Last(s)]
    ensures Distinct(s) ==> Distinct(Init(s)) && Last(s) !in Init(s)
  {
  }

  lemma ElemsAppend<T>(s: seq<T>, t: seq<T>)
    ensures Elems(s + t) == Elems(s) + Elems(t)
  {
  }

  lemma ElemsPush<T>(s: seq<T>, x: T)
    ensures Elems(s + [x]) == Elems(s) + {x}
  {
  }

  lemma ElemsInit<T>(s: seq<T>)
    requires s != []
    ensures Elems(s) == Elems(Init(s)) + {Last(s)}
  {
    assert s == Init(s) + [Last(s)];
  }

  lemma DistinctAppend<T>(s: seq<T>, t: seq<T>)
    requires Distinct(s) && Distinct(t) && Elems(s) !! Elems(t)
    ensures Distinct(s + t)
  {
    forall i, j | 0 <= i < j < |s + t|
      ensures (s + t)[i] != (s + t)[j]
    {
      if i < |s| <= j {
        assert s[i] in Elems(s) && t[j - |s|] in Elems(t);
      }
    }
  }

  lemma DistinctPush<T>(s: seq<T>, x: T)
    requires Distinct(s) && x !in s
    ensures Distinct(s + [x])
  {
  }

  /** A sequence without repeats has as many elements as its element set. */
  lemma {:induction false} DistinctSize<T>(s: seq<T>)
    requires Distinct(s)
    ensures |Elems(s)| == |s|
  {
    if s != [] {
      DistinctSize(Init(s));
      ElemsInit(s);
      assert Last(s) !in Elems(Init(s));
    }
  }

  lemma SubsetSize<T>(a: set<T>, b: set<T>)
    requires a <= b
    ensures |a| <= |b|
    ensures |a| == |b| ==> a == b
  {
    assert b == a + (b - a);
    assert |b| == |a| + |b - a|;
    if |a| == |b| {
      assert b - a == {};
    }
  }

  /** Pigeonhole: more places than values forces a repeat. */
  lemma Pigeonhole<T>(s: seq<T>, values: set<T>) returns (i: nat, j: nat)
    requires Elems(s) <= values && |s| > |values|
    ensures i < j < |s| && s[i] == s[j]
  {
    if Distinct(s) {
      DistinctSize(s);
      SubsetSize(Elems(s), values);
      assert false;
    }
    i, j :| 0 <= i < j < |s| && s[i] == s[j];
  }

  lemma FilterElems<T>(s: seq<T>, keep: set<T>)
    ensures Elems(Filter(s, keep)) == Elems(s) * keep
    ensures |Filter(s, keep)| <= |s|
    ensures Distinct(s) ==> Distinct(Filter(s, keep))
  {
    if s != [] {
      FilterElems(Init(s), keep);
      ElemsInit(s);
      var rest := Filter(Init(s), keep);
      if Last(s) !in keep {
        assert Filter(s, keep) == rest;
      } else {
        ElemsPush(rest, Last(s));
        if Distinct(s) {
          assert Last(s) !in Init(s);
          assert Last(s) !in Elems(rest);
          DistinctAppend(rest, [Last(s)]);
        }
      }
    }
  }

  /** x occurs somewhere before y. */
  ghost predicate Before<T>(s: seq<T>, x: T, y: T) {
    exists i, j :: 0 <= i < j < |s| && s[i] == x && s[j] == y
  }

  /** Filtering keeps and adds no order between the elements it keeps. */
  lemma {:induction false} FilterBefore<T>(s: seq<T>, keep: set<T>, x: T, y: T)
    requires x in keep && y in keep
    ensures Before(Filter(s, keep), x, y) <==> Before(s, x, y)
  {
    if s != [] {
      FilterBefore(Init(s), keep, x, y);
      FilterElems(Init(s), keep);
      InitLast(s);
      BeforePush(Init(s), Last(s), x, y);
      var kept := Filter(Init(s), keep);
      BeforePush(kept, Last(s), x, y);
      assert x in Elems(Init(s)) <==> x in Elems(kept);
      assert Filter(s, keep) == if Last(s) in keep then kept + [Last(s)] else kept;
    }
  }

  lemma BeforePush<T>(s: seq<T>, z: T, x: T, y: T)
    ensures Before(s + [z], x, y) <==> Before(s, x, y) || (x in s && z == y)
  {
    var t := s + [z];
    if Before(s, x, y) {
      var i, j :| 0 <= i < j < |s| && s[i] == x && s[j] == y;
      assert t[i] == x && t[j] == y;
    }
    if x in s && z == y {
      var i :| 0 <= i < |s| && s[i] == x;
      assert t[i] == x && t[|s|] == y;
    }
  }

  lemma BeforeAppend<T>(s: seq<T>, t: seq<T>, x: T, y: T)
    requires x in s && y in t
    ensures Before(s + t, x, y)
  {
    var i :| 0 <= i < |s| && s[i] == x;
    var j :| 0 <= j < |t| && t[j] == y;
    assert (s + t)[i] == x && (s + t)[|s| + j] == y;
  }

  lemma NotBothWays<T>(s: seq<T>, x: T, y: T)
    requires Distinct(s) && Before(s, x, y)
    ensures !Before(s, y, x)
  {
  }

  /** Every earlier element ranks before every later one. */
  ghost predicate RankedList<T>(rank: (T, T) -> bool, s: seq<T>) {
    forall a, b | 0 <= a < b < |s| :: rank(s[a], s[b])
  }

  lemma FilterRanked<T>(rank: (T, T) -> bool, s: seq<T>, keep: set<T>)
    requires RankedList(rank, s)
    ensures RankedList(rank, Filter(s, keep))
  {
    var f := Filter(s, keep);
    FilterElems(s, keep);
    forall a, b | 0 <= a < b < |f|
      ensures rank(f[a], f[b])
    {
      assert f[a] in Elems(f) && f[b] in Elems(f) && Before(f, f[a], f[b]);
      FilterBefore(s, keep, f[a], f[b]);
      var i, j :| 0 <= i < j < |s| && s[i] == f[a] && s[j] == f[b];
    }
  }

  lemma RankedPush<T>(rank: (T, T) -> bool, s: seq<T>, x: T)
    requires RankedList(rank, s) && forall y | y in s :: rank(y, x)
    ensures RankedList(rank, s + [x])
  {
  }

  /** Two listings of one set that never disagree on the order of two elements are equal. */
  lemma {:induction false} SameListing<T>(s: seq<T>, t: seq<T>)
    requires Distinct(s) && Distinct(t) && Elems(s) == Elems(t)
    requires forall x, y :: !(Before(s, x, y) && Before(t, y, x))
    ensures s == t
  {
    DistinctSize(s);
    DistinctSize(t);
    if s != [] {
      InitLast(s);
      InitLast(t);
      ElemsInit(s);
      ElemsInit(t);
      SameLast(s, t);
      forall x, y
        ensures !(Before(Init(s), x, y) && Before(Init(t), y, x))
      {
        BeforePush(Init(s), Last(s), x, y);
        BeforePush(Init(t), Last(t), y, x);
      }
      assert Last(s) !in Elems(Init(s)) && Last(t) !in Elems(Init(t));
      SameListing(Init(s), Init(t));
    }
  }

  lemma SameLast<T>(s: seq<T>, t: seq<T>)
    requires s != [] && t != [] && Elems(s) == Elems(t)
    requires forall x, y :: !(Before(s, x, y) && Before(t, y, x))
    ensures Last(s) == Last(t)
  {
    var x, y := Last(s), Last(t);
    if x != y {
      ElemsInit(s);
      ElemsInit(t);
      assert y in Elems(Init(s)) && x in Elems(Init(t));
      InitLast(s);
      InitLast(t);
      BeforePush(Init(s), x, y, x);
      BeforePush(Init(t), y, x, y);
    }
  }
}
