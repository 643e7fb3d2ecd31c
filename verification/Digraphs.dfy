/** Directed graphs as sets of edges, and the two facts about cycles the schedulers rest on. */
module Digraphs {

  type Edges = set<(nat, nat)>

  ghost predicate Path(edges: Edges, c: seq<nat>) {
    forall i :: 0 <= i < |c| - 1 ==> (c[i], c[i + 1]) in edges
  }

  ghost predicate Cycle(edges: Edges, c: seq<nat>) {
    |c| >= 2 && c[0] == c[|c| - 1] && Path(edges, c)
  }

  ghost predicate Cyclic(edges: Edges) {
    exists c :: Cycle(edges, c)
  }

  /** `v` has a predecessor in `s`. */
  ghost predicate Blocked(edges: Edges, s: set<nat>, v: nat) {
    exists u :: u in s && (u, v) in edges
  }

  /** A non-empty set in which everybody has a predecessor contains a cycle. */
  lemma StuckIsCyclic(edges: Edges, s: set<nat>, v: nat)
    requires v in s && forall x :: x in s ==> Blocked(edges, s, x)
    ensures Cyclic(edges)
  {
    var c := Walk(edges, s, v, |s|);
    var i, j := Repeats(c, s);
    var loop := c[i..j + 1];
    forall k | 0 <= k < |loop| - 1
      ensures (loop[k], loop[k + 1]) in edges
    {
      assert (c[i + k], c[i + k + 1]) in edges;
    }
    assert Cycle(edges, loop);
  }

  lemma {:induction false} Walk(edges: Edges, s: set<nat>, v: nat, steps: nat) returns (c: seq<nat>)
    requires v in s && forall x :: x in s ==> Blocked(edges, s, x)
    ensures |c| == steps + 1 && Path(edges, c) && forall i :: 0 <= i < |c| ==> c[i] in s
  {
    if steps == 0 {
      c := [v];
    } else {
      var tail := Walk(edges, s, v, steps - 1);
      assert Blocked(edges, s, tail[0]);
      var u :| u in s && (u, tail[0]) in edges;
      c := [u] + tail;
    }
  }

  /** A list longer than the set it is drawn from repeats an element. */
  lemma {:induction false} Repeats(c: seq<nat>, s: set<nat>) returns (i: nat, j: nat)
    requires |c| > |s| && forall k :: 0 <= k < |c| ==> c[k] in s
    ensures i < j < |c| && c[i] == c[j]
    decreases |s|
  {
    var last := |c| - 1;
    if k :| 0 <= k < last && c[k] == c[last] {
      i, j := k, last;
    } else {
      i, j := Repeats(c[..last], s - {c[last]});
    }
  }

  /** Edges that all lead upwards form no cycle. */
  lemma UpwardIsAcyclic(edges: Edges, rank: map<nat, int>)
    requires forall u, v :: (u, v) in edges ==> u in rank && v in rank && rank[u] < rank[v]
    ensures !Cyclic(edges)
  {
    forall c | Cycle(edges, c)
      ensures false
    {
      Rises(edges, rank, c, |c| - 1);
    }
  }

  lemma {:induction false} Rises(edges: Edges, rank: map<nat, int>, c: seq<nat>, i: nat)
    requires forall u, v :: (u, v) in edges ==> u in rank && v in rank && rank[u] < rank[v]
    requires Path(edges, c) && 0 < i < |c|
    ensures c[0] in rank && c[i] in rank && rank[c[0]] < rank[c[i]]
  {
    assert (c[i - 1], c[i]) in edges;
    if i > 1 {
      Rises(edges, rank, c, i - 1);
    }
  }

  // ---- Listing the numbers below n one by one ----

  ghost function Range(n: nat): (r: set<nat>)
    ensures forall i: nat :: i in r <==> i < n
  {
    if n == 0 then {} else Range(n - 1) + {n - 1}
  }

  lemma {:induction false} RangeCount(n: nat)
    ensures |Range(n)| == n
  {
    if n > 0 {
      RangeCount(n - 1);
    }
  }

  ghost function Before(order: seq<nat>, p: nat): set<nat>
    requires p <= |order|
  {
    set i | 0 <= i < p :: order[i]
  }

  /** What is not yet ordered after `p` places. */
  ghost function Left(n: nat, order: seq<nat>, p: nat): set<nat>
    requires p <= |order|
  {
    Range(n) - Before(order, p)
  }

  ghost predicate Distinct(n: nat, order: seq<nat>) {
    (forall p :: 0 <= p < |order| ==> order[p] < n) && (forall p, r :: 0 <= p < r < |order| ==> order[p] != order[r])
  }

  lemma InLeft(n: nat, order: seq<nat>, r: nat, p: nat)
    requires r <= p < |order| && Distinct(n, order)
    ensures order[p] in Left(n, order, r)
  {
  }

  lemma LeftShrinks(n: nat, order: seq<nat>, p: nat)
    requires p < |order|
    ensures Left(n, order, p + 1) == Left(n, order, p) - {order[p]}
  {
    assert Before(order, p + 1) == Before(order, p) + {order[p]};
  }

  lemma {:induction false} LeftCount(n: nat, order: seq<nat>, p: nat)
    requires p <= |order| && Distinct(n, order)
    ensures |Left(n, order, p)| == n - p
  {
    if p == 0 {
      RangeCount(n);
      assert Before(order, 0) == {};
    } else {
      LeftCount(n, order, p - 1);
      InLeft(n, order, p - 1, p - 1);
      LeftShrinks(n, order, p - 1);
      hide *;
    }
  }

  lemma SameBefore(order: seq<nat>, more: seq<nat>, p: nat)
    requires p <= |order|
    ensures Before(order + more, p) == Before(order, p)
  {
    forall i | 0 <= i < p
      ensures order[i] in Before(order + more, p)
    {
      assert (order + more)[i] == order[i];
    }
    forall x | x in Before(order + more, p)
      ensures x in Before(order, p)
    {
      var i :| 0 <= i < p && (order + more)[i] == x;
      assert order[i] == x;
    }
  }

  lemma SameLeft(n: nat, order: seq<nat>, more: seq<nat>, p: nat)
    requires p <= |order|
    ensures Left(n, order + more, p) == Left(n, order, p)
  {
    SameBefore(order, more, p);
  }

  /** A list without repetition that has every number below n has exactly n places. */
  lemma NothingLeft(n: nat, order: seq<nat>)
    requires Distinct(n, order) && forall v: nat :: v < n ==> v in order
    ensures |order| == n && Left(n, order, |order|) == {}
  {
    LeftCount(n, order, |order|);
    forall v | v in Range(n)
      ensures v in Before(order, |order|)
    {
      assert v in order;
    }
    assert Left(n, order, |order|) == {};
  }
}
