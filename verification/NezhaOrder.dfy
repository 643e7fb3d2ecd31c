/** The order in which Nezha sorts its queues: repeatedly the queues nobody else waits for, and
    on a cycle the one with the fewest dependencies left. */
module NezhaOrder {

  import opened Digraphs
  import opened NezhaSort

  /** Successor lists: in range, without repetition, no queue depends on itself. */
  ghost predicate Simple(adj: seq<seq<nat>>) {
    forall i :: 0 <= i < |adj| ==>
      && (forall p :: 0 <= p < |adj[i]| ==> adj[i][p] < |adj| && adj[i][p] != i)
      && (forall p, r :: 0 <= p < r < |adj[i]| ==> adj[i][p] != adj[i][r])
  }

  ghost function EdgesOf(adj: seq<seq<nat>>): Edges {
    set u, v | 0 <= u < |adj| && v in adj[u] :: (u, v)
  }

  /** The members of `live` that lead to `v`. */
  ghost function Into(adj: seq<seq<nat>>, live: set<nat>, v: nat): set<nat> {
    set u | u in live && u < |adj| && v in adj[u]
  }

  /** Nobody left has fewer predecessors left than `x`. */
  ghost predicate Least(adj: seq<seq<nat>>, live: set<nat>, x: nat) {
    x in live && forall v :: v in live ==> |Into(adj, live, x)| <= |Into(adj, live, v)|
  }

  ghost predicate Greedy(adj: seq<seq<nat>>, order: seq<nat>) {
    forall p :: 0 <= p < |order| ==> Least(adj, Left(|adj|, order, p), order[p])
  }

  /** The choice on a cycle: of those with fewest predecessors left the one with most
      successors, and of several such the first. */
  ghost predicate Breaks(adj: seq<seq<nat>>, live: set<nat>, x: nat)
    requires forall v :: v in live ==> v < |adj|
  {
    && Least(adj, live, x)
    && forall v :: v in live && Least(adj, live, v) ==> |adj[v]| < |adj[x]| || (|adj[v]| == |adj[x]| && x <= v)
  }

  ghost predicate Open(adj: seq<seq<nat>>, live: set<nat>, v: nat) {
    v in live && Into(adj, live, v) == {}
  }

  ghost predicate SomeOpen(adj: seq<seq<nat>>, live: set<nat>) {
    exists v :: Open(adj, live, v)
  }

  /** One round: all members of `live` without predecessors left, in increasing order, or one
      choice on a cycle. */
  ghost predicate Round(adj: seq<seq<nat>>, live: set<nat>, batch: seq<nat>)
    requires forall v :: v in live ==> v < |adj|
  {
    && batch != [] && (forall p, r :: 0 <= p < r < |batch| ==> batch[p] < batch[r])
    && if SomeOpen(adj, live) then
         forall v :: v in batch <==> Open(adj, live, v)
       else
         |batch| == 1 && Breaks(adj, live, batch[0])
  }

  /** `starts[k]` is where the k-th round begins. */
  ghost predicate Rounds(adj: seq<seq<nat>>, order: seq<nat>, starts: seq<nat>) {
    && |starts| > 0 && starts[0] == 0 && starts[|starts| - 1] == |order|
    && (forall k :: 0 <= k < |starts| - 1 ==> RoundAt(adj, order, starts, k))
  }

  ghost predicate RoundAt(adj: seq<seq<nat>>, order: seq<nat>, starts: seq<nat>, k: nat) {
    k + 1 < |starts| && starts[k] < starts[k + 1] <= |order|
      && Round(adj, Left(|adj|, order, starts[k]), order[starts[k]..starts[k + 1]])
  }

  ghost predicate Topological(adj: seq<seq<nat>>, order: seq<nat>) {
    forall p, r :: 0 <= p < |order| && 0 <= r < |order| && order[p] < |adj| && order[r] in adj[order[p]] ==> p < r
  }

  // ---- What a greedy order is good for ----

  lemma GreedyDistinct(adj: seq<seq<nat>>, order: seq<nat>)
    requires Greedy(adj, order)
    ensures Distinct(|adj|, order)
  {
    forall p, r | 0 <= p < r < |order|
      ensures order[p] != order[r]
    {
      assert Least(adj, Left(|adj|, order, r), order[r]) && order[p] in Before(order, r);
    }
    forall p | 0 <= p < |order|
      ensures order[p] < |adj|
    {
      assert Least(adj, Left(|adj|, order, p), order[p]);
    }
  }

  /** A greedy order of full length lists every queue. */
  lemma GreedyComplete(adj: seq<seq<nat>>, order: seq<nat>, v: nat)
    requires Greedy(adj, order) && |order| == |adj| && v < |adj|
    ensures v in order
  {
    GreedyDistinct(adj, order);
    LeftCount(|adj|, order, |order|);
    assert v !in Left(|adj|, order, |order|);
  }

  /** The order respects every dependency exactly if the dependencies have no cycle. */
  lemma TopologicalIffAcyclic(adj: seq<seq<nat>>, order: seq<nat>)
    requires Simple(adj) && Greedy(adj, order) && |order| == |adj|
    ensures Topological(adj, order) <==> !Cyclic(EdgesOf(adj))
  {
    GreedyDistinct(adj, order);
    if Topological(adj, order) {
      ForwardIsAcyclic(adj, order);
    }
    if !Cyclic(EdgesOf(adj)) {
      forall p, r | 0 <= p < |order| && 0 <= r < |order| && order[r] in adj[order[p]]
        ensures p < r
      {
        NobodyLeftInFront(adj, order, r);
        if r <= p {
          InLeft(|adj|, order, r, p);
        }
      }
    }
  }

  lemma NobodyLeftInFront(adj: seq<seq<nat>>, order: seq<nat>, r: nat)
    requires Greedy(adj, order) && r < |order| && !Cyclic(EdgesOf(adj))
    ensures Into(adj, Left(|adj|, order, r), order[r]) == {}
  {
    var live := Left(|adj|, order, r);
    assert Least(adj, live, order[r]);
    if Into(adj, live, order[r]) != {} {
      forall v | v in live
        ensures Blocked(EdgesOf(adj), live, v)
      {
        assert |Into(adj, live, v)| > 0;
        var u :| u in Into(adj, live, v);
        assert (u, v) in EdgesOf(adj);
      }
      StuckIsCyclic(EdgesOf(adj), live, order[r]);
    }
  }

  lemma ForwardIsAcyclic(adj: seq<seq<nat>>, order: seq<nat>)
    requires Simple(adj) && Greedy(adj, order) && |order| == |adj| && Topological(adj, order)
    ensures !Cyclic(EdgesOf(adj))
  {
    GreedyDistinct(adj, order);
    var rank := map v | v in Range(|adj|) :: Place(adj, order, v);
    forall u, v | (u, v) in EdgesOf(adj)
      ensures u in rank && v in rank && rank[u] < rank[v]
    {
      assert v in adj[u];
    }
    UpwardIsAcyclic(EdgesOf(adj), rank);
  }

  ghost function Place(adj: seq<seq<nat>>, order: seq<nat>, v: nat): (p: nat)
    requires Greedy(adj, order) && |order| == |adj| && v < |adj|
    ensures p < |order| && order[p] == v
  {
    GreedyComplete(adj, order, v);
    var p :| 0 <= p < |order| && order[p] == v;
    p
  }

  // ---- The computation ----

  const MAX_INT: int := 0x7fff_ffff_ffff_ffff

  /** The indegree of everybody left is the number of predecessors left. */
  ghost predicate Counts(adj: seq<seq<nat>>, live: set<nat>, indeg: seq<int>) {
    |indeg| == |adj| && forall v :: v in live ==> v < |adj| && indeg[v] == |Into(adj, live, v)|
  }

  ghost predicate Marks(live: set<nat>, sorted: seq<bool>) {
    forall v: nat :: v in live <==> v < |sorted| && !sorted[v]
  }

  /** Counts the edges into every queue. */
  method InDegrees(adj: seq<seq<nat>>) returns (indeg: seq<int>)
    requires Simple(adj)
    ensures Counts(adj, Range(|adj|), indeg)
  {
    indeg := seq(|adj|, i => 0);
    for i := 0 to |adj|
      invariant |indeg| == |adj| && forall v :: 0 <= v < |adj| ==> indeg[v] == |Into(adj, Range(i), v)|
    {
      ghost var before := indeg;
      for p := 0 to |adj[i]|
        invariant |indeg| == |adj|
        invariant forall v :: 0 <= v < |adj| ==> indeg[v] == before[v] + (if InFirst(adj[i], p, v) then 1 else 0)
      {
        indeg := indeg[adj[i][p] := indeg[adj[i][p]] + 1];
      }
      forall v | 0 <= v < |adj|
        ensures |Into(adj, Range(i + 1), v)| == |Into(adj, Range(i), v)| + (if v in adj[i] then 1 else 0)
      {
        IntoGrows(adj, i, v);
      }
    }
  }

  ghost predicate InFirst(list: seq<nat>, p: nat, v: nat)
    requires p <= |list|
  {
    exists r :: 0 <= r < p && list[r] == v
  }

  lemma IntoGrows(adj: seq<seq<nat>>, i: nat, v: nat)
    requires i < |adj|
    ensures |Into(adj, Range(i + 1), v)| == |Into(adj, Range(i), v)| + (if v in adj[i] then 1 else 0)
  {
    if v in adj[i] {
      assert Into(adj, Range(i + 1), v) == Into(adj, Range(i), v) + {i};
    } else {
      assert Into(adj, Range(i + 1), v) == Into(adj, Range(i), v);
    }
  }

  /** Takes `x` out: everybody left that it leads to has one predecessor less. */
  method Retire(adj: seq<seq<nat>>, indeg0: seq<int>, sorted: seq<bool>, x: nat, ghost live: set<nat>)
      returns (indeg: seq<int>)
    requires Simple(adj) && Counts(adj, live, indeg0) && x in live && |sorted| == |adj| && Marks(live - {x}, sorted)
    ensures Counts(adj, live - {x}, indeg)
  {
    indeg := indeg0;
    var list := adj[x];
    for p := 0 to |list|
      invariant |indeg| == |adj|
      invariant forall v :: v in live - {x} ==> indeg[v] == indeg0[v] - (if InFirst(list, p, v) then 1 else 0)
    {
      if !sorted[list[p]] {
        indeg := indeg[list[p] := indeg[list[p]] - 1];
      }
    }
    forall v | v in live - {x}
      ensures indeg[v] == |Into(adj, live - {x}, v)|
    {
      IntoShrinks(adj, live, x, v);
    }
  }

  lemma IntoShrinks(adj: seq<seq<nat>>, live: set<nat>, x: nat, v: nat)
    requires x in live && x < |adj|
    ensures |Into(adj, live - {x}, v)| == |Into(adj, live, v)| - (if v in adj[x] then 1 else 0)
  {
    if v in adj[x] {
      assert Into(adj, live, v) == Into(adj, live - {x}, v) + {x};
    } else {
      assert Into(adj, live, v) == Into(adj, live - {x}, v);
    }
  }

  /** All queues left that nobody left leads to. */
  method Unblocked(adj: seq<seq<nat>>, indeg: seq<int>, sorted: seq<bool>, ghost live: set<nat>)
      returns (ready: seq<nat>)
    requires Counts(adj, live, indeg) && |sorted| == |adj| && Marks(live, sorted)
    ensures forall v :: v in ready <==> Open(adj, live, v)
    ensures forall p, r :: 0 <= p < r < |ready| ==> ready[p] < ready[r]
  {
    ready := [];
    for i := 0 to |adj|
      invariant forall v :: v in ready <==> v in live && v < i && indeg[v] == 0
      invariant forall p :: 0 <= p < |ready| ==> ready[p] < i
      invariant forall p, r :: 0 <= p < r < |ready| ==> ready[p] < ready[r]
    {
      if !sorted[i] && indeg[i] == 0 {
        ready := ready + [i];
      }
    }
  }

  /** The choice on a cycle. */
  method Breaker(adj: seq<seq<nat>>, indeg: seq<int>, sorted: seq<bool>, ghost live: set<nat>) returns (best: int)
    requires Counts(adj, live, indeg) && |sorted| == |adj| && Marks(live, sorted) && live != {} && |adj| < MAX_INT
    ensures 0 <= best && best in live && Breaks(adj, live, best)
  {
    var min := Fewest(adj, indeg, sorted, live);
    best := -1;
    var bestOut := -1;
    for i := 0 to |adj|
      invariant forall v :: v in live && v < i && indeg[v] == min ==> |adj[v]| <= bestOut
      invariant if best == -1 then bestOut == -1
        else 0 <= best < i && best in live && indeg[best] == min && bestOut == |adj[best]|
      invariant forall v :: v in live && v < best && indeg[v] == min ==> |adj[v]| < bestOut
    {
      if !sorted[i] && indeg[i] == min && |adj[i]| > bestOut {
        best, bestOut := i, |adj[i]|;
      }
    }
    hide Into;
  }

  method Fewest(adj: seq<seq<nat>>, indeg: seq<int>, sorted: seq<bool>, ghost live: set<nat>) returns (min: int)
    requires Counts(adj, live, indeg) && |sorted| == |adj| && Marks(live, sorted) && live != {} && |adj| < MAX_INT
    ensures (forall v :: v in live ==> min <= indeg[v]) && exists v :: v in live && indeg[v] == min
  {
    min := MAX_INT;
    ghost var some :| some in live;
    IntoBound(adj, live, some);
    for i := 0 to |adj|
      invariant forall v :: v in live && v < i ==> min <= indeg[v]
      invariant min == MAX_INT || exists v :: v in live && v < i && indeg[v] == min
    {
      if !sorted[i] && indeg[i] < min {
        min := indeg[i];
      }
    }
  }

  lemma IntoBound(adj: seq<seq<nat>>, live: set<nat>, v: nat)
    ensures |Into(adj, live, v)| <= |adj|
  {
    RangeCount(|adj|);
    var rest := Range(|adj|) - Into(adj, live, v);
    assert Range(|adj|) == Into(adj, live, v) + rest;
  }

  lemma GreedyNext(adj: seq<seq<nat>>, order: seq<nat>, x: nat)
    requires Greedy(adj, order) && Least(adj, Left(|adj|, order, |order|), x)
    ensures Greedy(adj, order + [x]) && Left(|adj|, order + [x], |order| + 1) == Left(|adj|, order, |order|) - {x}
  {
    var order' := order + [x];
    forall p | 0 <= p < |order'|
      ensures Least(adj, Left(|adj|, order', p), order'[p])
    {
      SameBefore(order, [x], p);
    }
    LeftShrinks(|adj|, order', |order|);
    SameBefore(order, [x], |order|);
  }

  lemma RoundsNext(adj: seq<seq<nat>>, order: seq<nat>, starts: seq<nat>, batch: seq<nat>)
    requires Rounds(adj, order, starts) && batch != [] && Round(adj, Left(|adj|, order, |order|), batch)
    ensures Rounds(adj, order + batch, starts + [|order| + |batch|])
  {
    var order', starts' := order + batch, starts + [|order| + |batch|];
    hide Round; hide Before;
    forall k | 0 <= k < |starts'| - 1
      ensures RoundAt(adj, order', starts', k)
    {
      if k < |starts| - 1 {
        assert RoundAt(adj, order, starts, k);
        assert order'[starts[k]..starts[k + 1]] == order[starts[k]..starts[k + 1]];
        SameLeft(|adj|, order, batch, starts[k]);
      } else {
        assert order'[|order|..|order| + |batch|] == batch;
        SameLeft(|adj|, order, batch, |order|);
      }
    }
  }

  /** The state between two rounds. */
  ghost predicate Consistent(adj: seq<seq<nat>>, order: seq<nat>, sorted: seq<bool>, indeg: seq<int>, live: set<nat>) {
    && Simple(adj) && |sorted| == |adj| && Marks(live, sorted) && live == Left(|adj|, order, |order|)
    && Counts(adj, live, indeg) && Greedy(adj, order)
  }

  lemma SomebodyLeft(adj: seq<seq<nat>>, order: seq<nat>, sorted: seq<bool>, indeg: seq<int>, live: set<nat>)
    requires Consistent(adj, order, sorted, indeg, live)
    ensures |order| <= |adj| && (|order| < |adj| ==> live != {})
  {
    GreedyDistinct(adj, order);
    LeftCount(|adj|, order, |order|);
  }

  /** One choice of the next round. */
  method NextRound(adj: seq<seq<nat>>, indeg: seq<int>, sorted: seq<bool>, ghost live: set<nat>)
      returns (ready: seq<nat>)
    requires Counts(adj, live, indeg) && |sorted| == |adj| && Marks(live, sorted) && live != {} && |adj| < MAX_INT
    ensures ready != [] && Round(adj, live, ready)
  {
    ready := Unblocked(adj, indeg, sorted, live);
    assert |ready| > 0 ==> ready[0] in ready && SomeOpen(adj, live);
    if |ready| == 0 {
      var best := Breaker(adj, indeg, sorted, live);
      ready := [best];
    }
  }

  method Emit(adj: seq<seq<nat>>, ready: seq<nat>, order0: seq<nat>, sorted0: seq<bool>, indeg0: seq<int>,
      ghost live0: set<nat>)
    returns (order: seq<nat>, sorted: seq<bool>, indeg: seq<int>, ghost live: set<nat>)
    requires Consistent(adj, order0, sorted0, indeg0, live0) && (forall v :: v in live0 ==> v < |adj|)
    requires Round(adj, live0, ready)
    ensures order == order0 + ready && Consistent(adj, order, sorted, indeg, live)
  {
    order, sorted, indeg, live := order0, sorted0, indeg0, live0;
    assert Extends(order0, ready, 0, order0);
    RoundIsLeft(adj, live0, ready);
    hide *;
    for p := 0 to |ready|
      invariant Extends(order0, ready, p, order) && Consistent(adj, order, sorted, indeg, live)
      invariant live <= live0 && (forall r :: p <= r < |ready| ==> ready[r] in live) && (p == 0 ==> live == live0)
    {
      var v := ready[p];
      NextIsLeast(adj, live0, live, ready, p);
      Opened(adj, order, sorted, indeg, live, v);
      if !sorted[v] {
        sorted := sorted[v := true];
        indeg := Retire(adj, indeg, sorted, v, live);
        Closed(adj, order, sorted, indeg, live, v);
        ExtendOne(order0, ready, p, order);
        order := order + [v];
        live := live - {v};
      }
    }
    ExtendAll(order0, ready, order);
  }

  ghost predicate Extends(order0: seq<nat>, ready: seq<nat>, p: nat, order: seq<nat>) {
    p <= |ready| && order == order0 + ready[..p]
  }

  lemma ExtendOne(order0: seq<nat>, ready: seq<nat>, p: nat, order: seq<nat>)
    requires Extends(order0, ready, p, order) && p < |ready|
    ensures Extends(order0, ready, p + 1, order + [ready[p]])
  {
  }

  lemma ExtendAll(order0: seq<nat>, ready: seq<nat>, order: seq<nat>)
    requires Extends(order0, ready, |ready|, order)
    ensures order == order0 + ready
  {
    assert ready[..|ready|] == ready;
  }

  lemma RoundIsLeft(adj: seq<seq<nat>>, live: set<nat>, ready: seq<nat>)
    requires (forall v :: v in live ==> v < |adj|) && Round(adj, live, ready)
    ensures (forall r :: 0 <= r < |ready| ==> ready[r] in live)
    ensures (forall p, r :: 0 <= p < r < |ready| ==> ready[p] != ready[r])
  {
    forall r | 0 <= r < |ready|
      ensures ready[r] in live
    {
      assert ready[r] in ready;
    }
  }

  lemma Opened(adj: seq<seq<nat>>, order: seq<nat>, sorted: seq<bool>, indeg: seq<int>, live: set<nat>, v: nat)
    requires Consistent(adj, order, sorted, indeg, live) && v in live
    ensures Simple(adj) && v < |sorted| == |adj| && !sorted[v] && Counts(adj, live, indeg)
    ensures Marks(live - {v}, sorted[v := true])
  {
  }

  lemma Closed(adj: seq<seq<nat>>, order: seq<nat>, sorted: seq<bool>, indeg: seq<int>, live: set<nat>, v: nat)
    requires Simple(adj) && live == Left(|adj|, order, |order|) && Greedy(adj, order) && Least(adj, live, v)
    requires |sorted| == |adj| && Marks(live - {v}, sorted) && Counts(adj, live - {v}, indeg)
    ensures Consistent(adj, order + [v], sorted, indeg, live - {v})
  {
    GreedyNext(adj, order, v);
  }

  lemma NextIsLeast(adj: seq<seq<nat>>, live0: set<nat>, live: set<nat>, ready: seq<nat>, p: nat)
    requires (forall v :: v in live0 ==> v < |adj|) && Round(adj, live0, ready) && p < |ready| && live <= live0
    requires ready[p] in live && (p == 0 ==> live == live0)
    ensures Least(adj, live, ready[p])
  {
    if SomeOpen(adj, live0) {
      assert ready[p] in ready;
      assert Into(adj, live, ready[p]) <= Into(adj, live0, ready[p]);
    }
  }

  /** `nezhaQueueOrder` on successor lists. */
  method QueueOrder(adj: seq<seq<nat>>) returns (order: seq<nat>, ghost starts: seq<nat>)
    requires Simple(adj) && |adj| < MAX_INT
    ensures |order| == |adj| && Greedy(adj, order)
    ensures Rounds(adj, order, starts)
  {
    var indeg := InDegrees(adj);
    var sorted := seq(|adj|, i => false);
    order, starts := [], [0];
    ghost var live := Range(|adj|);
    assert Left(|adj|, order, 0) == live;
    SomebodyLeft(adj, order, sorted, indeg, live);
    while |order| < |adj|
      invariant |order| <= |adj| && (|order| < |adj| ==> live != {}) && Consistent(adj, order, sorted, indeg, live)
      invariant Rounds(adj, order, starts)
    {
      hide Greedy; hide Counts; hide Simple; hide Round; hide Rounds; hide Marks;
      var ready := NextRound(adj, indeg, sorted, live);
      RoundsNext(adj, order, starts, ready);
      starts := starts + [|order| + |ready|];
      order, sorted, indeg, live := Emit(adj, ready, order, sorted, indeg, live);
      SomebodyLeft(adj, order, sorted, indeg, live);
    }
  }

  // ---- Where the dependencies come from ----

  /** One queue per address, found through `index`; every address a transaction reads beside a
      write has a queue. */
  ghost predicate Indexed(nodes: seq<Node>, own: seq<seq<nat>>, queues: seq<Queue>, index: map<Address, nat>) {
    && Tables(nodes, own) && (forall i :: 0 <= i < |queues| ==> QueueOf(nodes, queues[i]))
    && (forall i :: 0 <= i < |queues| ==> queues[i].key in index && index[queues[i].key] == i)
    && (forall a :: a in index ==> index[a] < |queues| && queues[index[a]].key == a)
    && (forall m, n ::
      0 <= m < |nodes| && 0 <= n < |nodes| && nodes[m].write && nodes[n].tx == nodes[m].tx ==> nodes[n].key in index)
  }

  /** Some transaction writes the first address and reads the second. */
  ghost predicate Depends(nodes: seq<Node>, queues: seq<Queue>, i: nat, j: nat) {
    && i < |queues| && j < |queues| && i != j
    && exists m, n ::
      m in queues[i].writers && n in queues[j].readers && m < |nodes| && n < |nodes| && nodes[m].tx == nodes[n].tx
  }

  /** The queues of the other addresses among the first `k` nodes that are reads. */
  ghost function ReadsIn(nodes: seq<Node>, mine: seq<nat>, index: map<Address, nat>, key: Address, k: nat): set<nat>
    requires k <= |mine| && forall e :: 0 <= e < |mine| ==> mine[e] < |nodes| && nodes[mine[e]].key in index
  {
    if k == 0 then {} else
      var n := nodes[mine[k - 1]];
      ReadsIn(nodes, mine, index, key, k - 1) + (if !n.write && n.key != key then {index[n.key]} else {})
  }

  lemma {:induction false} ReadsInHolds(nodes: seq<Node>, mine: seq<nat>, index: map<Address, nat>, key: Address,
      k: nat, j: nat)
    requires k <= |mine| && forall e :: 0 <= e < |mine| ==> mine[e] < |nodes| && nodes[mine[e]].key in index
    ensures j in ReadsIn(nodes, mine, index, key, k)
      <==> exists e ::
        0 <= e < k && !nodes[mine[e]].write && nodes[mine[e]].key != key && index[nodes[mine[e]].key] == j
  {
    if k > 0 {
      ReadsInHolds(nodes, mine, index, key, k - 1, j);
    }
  }

  /** One writer's part of the successors: the queues of its reads elsewhere that are not listed. */
  method AddReads(nodes: seq<Node>, mine: seq<nat>, index: map<Address, nat>, key: Address, before: seq<nat>)
      returns (found: seq<nat>)
    requires forall e :: 0 <= e < |mine| ==> mine[e] < |nodes| && nodes[mine[e]].key in index
    requires forall a, b :: 0 <= a < b < |before| ==> before[a] != before[b]
    ensures forall a, b :: 0 <= a < b < |found| ==> found[a] != found[b]
    ensures forall j: nat :: j in found <==> j in before || j in ReadsIn(nodes, mine, index, key, |mine|)
  {
    found := before;
    for k := 0 to |mine|
      invariant forall a, b :: 0 <= a < b < |found| ==> found[a] != found[b]
      invariant forall j: nat :: j in found <==> j in before || j in ReadsIn(nodes, mine, index, key, k)
    {
      var n := nodes[mine[k]];
      if !n.write && n.key != key {
        var to := index[n.key];
        if to !in found {
          found := found + [to];
        }
      }
    }
  }

  /** The successors of one queue: what its writers read elsewhere, each once. */
  method Successors(nodes: seq<Node>, own: seq<seq<nat>>, queues: seq<Queue>, index: map<Address, nat>, i: nat)
      returns (found: seq<nat>)
    requires Indexed(nodes, own, queues, index) && i < |queues|
    ensures forall p, r :: 0 <= p < r < |found| ==> found[p] != found[r]
    ensures forall j: nat :: j in found <==> Depends(nodes, queues, i, j)
  {
    found := [];
    var q := queues[i];
    for p := 0 to |q.writers|
      invariant forall a, b :: 0 <= a < b < |found| ==> found[a] != found[b]
      invariant forall j: nat :: j in found <==> exists r :: 0 <= r < p && Leads(nodes, own, index, q, r, j)
    {
      WriterOf(nodes, own, queues, index, i, p);
      var mine := own[nodes[q.writers[p]].tx];
      found := AddReads(nodes, mine, index, q.key, found);
      assert forall j: nat :: Leads(nodes, own, index, q, p, j) <==> j in ReadsIn(nodes, mine, index, q.key, |mine|);
    }
    forall j: nat
      ensures j in found <==> Depends(nodes, queues, i, j)
    {
      LeadsIsDepends(nodes, own, queues, index, i, j);
    }
  }

  ghost predicate Leads(nodes: seq<Node>, own: seq<seq<nat>>, index: map<Address, nat>, q: Queue, r: nat, j: nat) {
    && r < |q.writers| && q.writers[r] < |nodes| && nodes[q.writers[r]].tx < |own|
    && var mine := own[nodes[q.writers[r]].tx];
    && (forall e :: 0 <= e < |mine| ==> mine[e] < |nodes| && nodes[mine[e]].key in index)
    && j in ReadsIn(nodes, mine, index, q.key, |mine|)
  }

  lemma WriterOf(nodes: seq<Node>, own: seq<seq<nat>>, queues: seq<Queue>, index: map<Address, nat>, i: nat, r: nat)
    requires Indexed(nodes, own, queues, index) && i < |queues| && r < |queues[i].writers|
    ensures queues[i].writers[r] < |nodes| && nodes[queues[i].writers[r]].write
    ensures nodes[queues[i].writers[r]].tx < |own|
    ensures var mine := own[nodes[queues[i].writers[r]].tx]; forall e :: 0 <= e < |mine| ==>
      mine[e] < |nodes| && nodes[mine[e]].tx == nodes[queues[i].writers[r]].tx && nodes[mine[e]].key in index
  {
    assert queues[i].writers[r] in queues[i].writers;
    assert Lists(nodes, own[nodes[queues[i].writers[r]].tx], nodes[queues[i].writers[r]].tx);
  }

  lemma LeadsIsDepends(nodes: seq<Node>, own: seq<seq<nat>>, queues: seq<Queue>, index: map<Address, nat>, i: nat,
      j: nat)
    requires Indexed(nodes, own, queues, index) && i < |queues|
    ensures (exists r :: 0 <= r < |queues[i].writers| && Leads(nodes, own, index, queues[i], r, j))
        <==> Depends(nodes, queues, i, j)
  {
    if r :| 0 <= r < |queues[i].writers| && Leads(nodes, own, index, queues[i], r, j) {
      LeadsDepends(nodes, own, queues, index, i, r, j);
    }
    if Depends(nodes, queues, i, j) {
      var m, n :| m in queues[i].writers && n in queues[j].readers && m < |nodes| && n < |nodes|
        && nodes[m].tx == nodes[n].tx;
      DependsLeads(nodes, own, queues, index, i, j, m, n);
    }
  }

  lemma LeadsDepends(nodes: seq<Node>, own: seq<seq<nat>>, queues: seq<Queue>, index: map<Address, nat>, i: nat,
      r: nat, j: nat)
    requires Indexed(nodes, own, queues, index) && i < |queues| && Leads(nodes, own, index, queues[i], r, j)
    ensures Depends(nodes, queues, i, j)
  {
    var q := queues[i];
    WriterOf(nodes, own, queues, index, i, r);
    hide Tables; hide Lists; hide ReadsIn;
    var mine := own[nodes[q.writers[r]].tx];
    ReadsInHolds(nodes, mine, index, q.key, |mine|, j);
    var e :| 0 <= e < |mine| && !nodes[mine[e]].write && nodes[mine[e]].key != q.key && index[nodes[mine[e]].key] == j;
    assert q.writers[r] in q.writers && mine[e] in queues[j].readers;
  }

  lemma DependsLeads(nodes: seq<Node>, own: seq<seq<nat>>, queues: seq<Queue>, index: map<Address, nat>, i: nat,
      j: nat, m: nat, n: nat)
    requires Indexed(nodes, own, queues, index) && i < |queues| && j < |queues| && i != j
    requires m in queues[i].writers && n in queues[j].readers && m < |nodes| && n < |nodes|
    requires nodes[m].tx == nodes[n].tx
    ensures exists r :: 0 <= r < |queues[i].writers| && Leads(nodes, own, index, queues[i], r, j)
  {
    var q := queues[i];
    var r :| 0 <= r < |q.writers| && q.writers[r] == m;
    WriterOf(nodes, own, queues, index, i, r);
    var mine := own[nodes[m].tx];
    assert Lists(nodes, mine, nodes[m].tx);
    var e :| 0 <= e < |mine| && mine[e] == n;
    assert nodes[n].key == queues[j].key != q.key;
    hide Tables; hide Lists; hide ReadsIn;
    ReadsInHolds(nodes, mine, index, q.key, |mine|, j);
    assert Leads(nodes, own, index, q, r, j);
  }

  /** The successor lists of all queues, which is what `QueueOrder` works on. */
  method Dependencies(nodes: seq<Node>, own: seq<seq<nat>>, queues: seq<Queue>, index: map<Address, nat>)
      returns (adj: seq<seq<nat>>)
    requires Indexed(nodes, own, queues, index)
    ensures Simple(adj) && |adj| == |queues|
    ensures forall i, j :: 0 <= i < |queues| ==> (j in adj[i] <==> Depends(nodes, queues, i, j))
  {
    adj := [];
    for i := 0 to |queues|
      invariant |adj| == i
      invariant forall k :: 0 <= k < i ==> forall p, r :: 0 <= p < r < |adj[k]| ==> adj[k][p] != adj[k][r]
      invariant forall k, j: nat :: 0 <= k < i ==> (j in adj[k] <==> Depends(nodes, queues, k, j))
    {
      var found := Successors(nodes, own, queues, index, i);
      adj := adj + [found];
    }
    forall i, p | 0 <= i < |adj| && 0 <= p < |adj[i]|
      ensures adj[i][p] < |adj| && adj[i][p] != i
    {
      assert adj[i][p] in adj[i];
    }
  }
}
