/** The dependency-safe FIFO order of MetaTrack's block lane: Kahn's algorithm that always
    emits the earliest eligible transaction. */
module Blocklane {

  import opened Basics
  import opened Digraphs

  datatype Outcome =
    | Ordered(ids: seq<Id>)
    | EmptyId
    | Duplicate(id: Id)
    | SelfDependency(id: Id)
    | CycleFound

  // ---- The order as a function of the dependencies alone ----

  /** The members of `live` that `v` depends on. */
  ghost function In(edges: Edges, live: set<nat>, v: nat): set<nat> {
    set u | u in live && (u, v) in edges
  }

  ghost predicate Open(edges: Edges, live: set<nat>, v: nat) {
    v in live && In(edges, live, v) == {}
  }

  ghost predicate SomeOpen(edges: Edges, live: set<nat>) {
    exists v :: Open(edges, live, v)
  }

  ghost predicate Earliest(edges: Edges, live: set<nat>, x: nat) {
    Open(edges, live, x) && forall v :: Open(edges, live, v) ==> x <= v
  }

  lemma {:induction false} HasEarliest(edges: Edges, live: set<nat>, v: nat)
    requires Open(edges, live, v)
    ensures exists x :: Earliest(edges, live, x)
    decreases v
  {
    if w: nat :| Open(edges, live, w) && w < v {
      HasEarliest(edges, live, w);
    } else {
      assert Earliest(edges, live, v);
    }
  }

  ghost function First(edges: Edges, live: set<nat>): (x: nat)
    requires SomeOpen(edges, live)
    ensures Earliest(edges, live, x)
  {
    var v :| Open(edges, live, v);
    HasEarliest(edges, live, v);
    var x :| Earliest(edges, live, x);
    x
  }

  /** Emits the earliest open transaction until none is open. */
  ghost function Schedule(edges: Edges, live: set<nat>): seq<nat>
    decreases |live|
  {
    if SomeOpen(edges, live) then
      var x := First(edges, live);
      [x] + Schedule(edges, live - {x})
    else
      []
  }

  ghost function LeftOf(live: set<nat>, order: seq<nat>, p: nat): set<nat>
    requires p <= |order|
  {
    live - Before(order, p)
  }

  lemma DropOne(live: set<nat>, x: nat, rest: seq<nat>, p: nat)
    requires p <= |rest|
    ensures LeftOf(live, [x] + rest, p + 1) == LeftOf(live - {x}, rest, p)
  {
    var order := [x] + rest;
    forall i | 0 <= i < p
      ensures rest[i] in Before(order, p + 1)
    {
      assert order[i + 1] == rest[i];
    }
    assert order[0] == x;
    forall y | y in Before(order, p + 1)
      ensures y == x || y in Before(rest, p)
    {
      var i :| 0 <= i < p + 1 && order[i] == y;
      assert i > 0 ==> rest[i - 1] == y;
    }
  }

  /** At every place the earliest transaction is emitted whose dependencies are all emitted. */
  lemma {:induction false} EmitsEarliest(edges: Edges, live: set<nat>, p: nat)
    requires p < |Schedule(edges, live)|
    ensures Earliest(edges, LeftOf(live, Schedule(edges, live), p), Schedule(edges, live)[p])
    decreases p
  {
    var order := Schedule(edges, live);
    var x := First(edges, live);
    var rest := Schedule(edges, live - {x});
    if p == 0 {
      assert LeftOf(live, order, 0) == live;
    } else {
      EmitsEarliest(edges, live - {x}, p - 1);
      DropOne(live, x, rest, p - 1);
    }
  }

  /** It stops only when nothing is open. */
  lemma {:induction false} EmitsAllOpen(edges: Edges, live: set<nat>)
    ensures !SomeOpen(edges, LeftOf(live, Schedule(edges, live), |Schedule(edges, live)|))
    decreases |live|
  {
    var order := Schedule(edges, live);
    if SomeOpen(edges, live) {
      var x := First(edges, live);
      EmitsAllOpen(edges, live - {x});
      DropOne(live, x, Schedule(edges, live - {x}), |order| - 1);
    } else {
      assert LeftOf(live, order, 0) == live;
    }
  }

  ghost predicate Within(edges: Edges, n: nat) {
    forall u, v :: (u, v) in edges ==> u < n && v < n
  }

  lemma ScheduleDistinct(edges: Edges, n: nat)
    ensures Distinct(n, Schedule(edges, Range(n)))
  {
    var order := Schedule(edges, Range(n));
    forall p | 0 <= p < |order|
      ensures order[p] < n && order[p] !in Before(order, p)
    {
      EmitsEarliest(edges, Range(n), p);
    }
    forall p, r | 0 <= p < r < |order|
      ensures order[p] != order[r]
    {
      assert order[p] in Before(order, r);
    }
  }

  /** Every dependency is emitted before what depends on it. */
  lemma ScheduleRespects(edges: Edges, n: nat, u: nat, r: nat)
    requires Within(edges, n) && r < |Schedule(edges, Range(n))| && (u, Schedule(edges, Range(n))[r]) in edges
    ensures u in Before(Schedule(edges, Range(n)), r)
  {
    var order := Schedule(edges, Range(n));
    EmitsEarliest(edges, Range(n), r);
    assert u !in In(edges, LeftOf(Range(n), order, r), order[r]);
  }

  /** Everything is emitted exactly if the dependencies have no cycle. */
  lemma CompleteIffAcyclic(edges: Edges, n: nat)
    requires Within(edges, n)
    ensures |Schedule(edges, Range(n))| <= n
    ensures |Schedule(edges, Range(n))| == n <==> !Cyclic(edges)
  {
    var order := Schedule(edges, Range(n));
    ScheduleDistinct(edges, n);
    LeftCount(n, order, |order|);
    if |order| == n {
      FullIsAcyclic(edges, n);
    } else {
      var live := LeftOf(Range(n), order, |order|);
      EmitsAllOpen(edges, Range(n));
      assert live == Left(n, order, |order|) && |live| > 0;
      var v :| v in live;
      forall x | x in live
        ensures Blocked(edges, live, x)
      {
        assert !Open(edges, live, x);
        var u :| u in In(edges, live, x);
      }
      StuckIsCyclic(edges, live, v);
    }
  }

  lemma FullIsAcyclic(edges: Edges, n: nat)
    requires Within(edges, n) && |Schedule(edges, Range(n))| == n
    ensures !Cyclic(edges)
  {
    var order := Schedule(edges, Range(n));
    ScheduleDistinct(edges, n);
    LeftCount(n, order, n);
    assert Left(n, order, n) == {};
    assert forall v :: v in Range(n) ==> v in Before(order, n);
    var rank := map v | v in Range(n) :: Place(order, v);
    forall u, v | (u, v) in edges
      ensures u in rank && v in rank && rank[u] < rank[v]
    {
      ScheduleRespects(edges, n, u, Place(order, v));
      var i :| 0 <= i < Place(order, v) && order[i] == u;
    }
    UpwardIsAcyclic(edges, rank);
  }

  ghost function Place(order: seq<nat>, v: nat): (p: nat)
    requires v in Before(order, |order|)
    ensures p < |order| && order[p] == v
  {
    var p :| 0 <= p < |order| && order[p] == v;
    p
  }

  // ---- The computation ----

  /** Dependencies between transactions of the batch, from parent to child. */
  ghost function Wanted(ids: seq<Id>, dependencies: map<Id, seq<Id>>): Edges {
    set p: nat, c: nat | p in Range(|ids|) && c in Range(|ids|) && ids[c] in dependencies
      && ids[p] in dependencies[ids[c]] :: (p, c)
  }

  ghost predicate Usable(ids: seq<Id>) {
    (forall i :: 0 <= i < |ids| ==> ids[i] != Empty) && (forall i, j :: 0 <= i < j < |ids| ==> ids[i] != ids[j])
  }

  /** The first identifier that is empty or repeats an earlier one. */
  ghost predicate FirstBad(ids: seq<Id>, i: nat) {
    i < |ids| && Usable(ids[..i]) && (ids[i] == Empty || ids[i] in ids[..i])
  }

  lemma OneFirstBad(ids: seq<Id>, i: nat, j: nat)
    requires FirstBad(ids, i) && FirstBad(ids, j)
    ensures i == j
  {
    if i < j {
      BadInside(ids, i, j);
    } else if j < i {
      BadInside(ids, j, i);
    }
  }

  lemma BadInside(ids: seq<Id>, i: nat, j: nat)
    requires FirstBad(ids, i) && i < j <= |ids|
    ensures !Usable(ids[..j])
  {
    assert ids[..j][i] == ids[i];
    if ids[i] in ids[..i] {
      var k :| 0 <= k < i && ids[..i][k] == ids[i];
      assert ids[..j][k] == ids[..j][i];
    }
  }

  lemma NoneBad(ids: seq<Id>, j: nat)
    requires Usable(ids)
    ensures !FirstBad(ids, j)
  {
  }

  ghost predicate SelfDependent(ids: seq<Id>, dependencies: map<Id, seq<Id>>, id: Id) {
    id in ids && id in dependencies && id in dependencies[id]
  }

  /** `positions` finds every identifier. */
  ghost predicate Finds(ids: seq<Id>, positions: map<Id, nat>) {
    && (forall i :: 0 <= i < |ids| ==> ids[i] in positions && positions[ids[i]] == i)
    && (forall id :: id in positions ==> positions[id] < |ids| && ids[positions[id]] == id)
  }

  method Positions(ids: seq<Id>) returns (positions: map<Id, nat>, failed: bool, bad: Id)
    ensures failed <==> !Usable(ids)
    ensures failed ==> bad in ids
    ensures failed ==> (bad == Empty || exists i, j :: 0 <= i < j < |ids| && ids[i] == ids[j] == bad)
    ensures failed ==> exists i: nat :: FirstBad(ids, i) && ids[i] == bad
    ensures !failed ==> Finds(ids, positions)
  {
    positions, failed, bad := map[], false, Empty;
    for i := 0 to |ids|
      invariant !failed && Usable(ids[..i]) && Finds(ids[..i], positions)
    {
      if ids[i] == Empty || ids[i] in positions {
        assert ids[i] in positions ==> ids[..i][positions[ids[i]]] == ids[i];
        assert FirstBad(ids, i);
        return positions, true, ids[i];
      }
      positions := positions[ids[i] := i];
      assert ids[..i + 1] == ids[..i] + [ids[i]];
    }
    assert ids[..|ids|] == ids;
  }

  /** Indegrees and children lists of the edges found so far. */
  ghost predicate Wired(edges: Edges, n: nat, indegree: seq<int>, children: seq<seq<nat>>) {
    && |indegree| == |children| == n
    && (forall c :: 0 <= c < n ==> indegree[c] == |In(edges, Range(n), c)|)
    && (forall p :: 0 <= p < n ==> Childs(edges, p, children[p]))
  }

  ghost predicate Childs(edges: Edges, p: nat, list: seq<nat>) {
    (forall c: nat :: c in list <==> (p, c) in edges) && (forall i, j :: 0 <= i < j < |list| ==> list[i] != list[j])
  }

  lemma AddEdge(edges: Edges, n: nat, indegree: seq<int>, children: seq<seq<nat>>, p: nat, c: nat)
    requires Wired(edges, n, indegree, children) && p < n && c < n && (p, c) !in edges
    ensures Wired(edges + {(p, c)}, n, indegree[c := indegree[c] + 1], children[p := children[p] + [c]])
  {
    var edges' := edges + {(p, c)};
    forall v | 0 <= v < n
      ensures |In(edges', Range(n), v)| == |In(edges, Range(n), v)| + if v == c then 1 else 0
    {
      if v == c {
        assert In(edges', Range(n), c) == In(edges, Range(n), c) + {p};
      } else {
        assert In(edges', Range(n), v) == In(edges, Range(n), v);
      }
    }
  }

  ghost function Star(parents: set<nat>, c: nat): Edges {
    set p | p in parents :: (p, c)
  }

  /** `id` is among the first `j` of a list. */
  ghost predicate InFirst(list: seq<Id>, j: nat, id: Id) {
    j <= |list| && exists i :: 0 <= i < j && list[i] == id
  }

  /** Enters the dependencies of one transaction, each parent once. */
  method WireChild(ids: seq<Id>, positions: map<Id, nat>, deps: seq<Id>, c: nat, indegree0: seq<int>,
      children0: seq<seq<nat>>, ghost edges0: Edges)
    returns (indegree: seq<int>, children: seq<seq<nat>>, self: bool, ghost edges: Edges)
    requires Finds(ids, positions) && c < |ids| && Wired(edges0, |ids|, indegree0, children0)
    requires forall p: nat :: (p, c) !in edges0
    ensures self <==> ids[c] in deps
    ensures !self ==> Wired(edges, |ids|, indegree, children)
    ensures !self ==> forall p: nat, d: nat ::
      (p, d) in edges <==> (p, d) in edges0 || (d == c && p < |ids| && ids[p] in deps)
  {
    indegree, children, edges, self := indegree0, children0, edges0, false;
    var seen: set<nat> := {};
    for j := 0 to |deps|
      invariant !self && Wired(edges, |ids|, indegree, children) && edges == edges0 + Star(seen, c)
      invariant !InFirst(deps, j, ids[c]) && forall p: nat :: p in seen <==> p < |ids| && InFirst(deps, j, ids[p])
    {
      if deps[j] == ids[c] {
        self := true;
        return;
      }
      FirstGrows(ids, deps, j);
      if deps[j] in positions && positions[deps[j]] !in seen {
        var p := positions[deps[j]];
        assert (p, c) !in edges;
        AddEdge(edges, |ids|, indegree, children, p, c);
        seen := seen + {p};
        indegree := indegree[c := indegree[c] + 1];
        children := children[p := children[p] + [c]];
        edges := edges + {(p, c)};
        assert edges == edges0 + Star(seen, c);
      }
    }
  }

  lemma FirstGrows(ids: seq<Id>, deps: seq<Id>, j: nat)
    requires j < |deps|
    ensures forall id :: InFirst(deps, j + 1, id) <==> InFirst(deps, j, id) || deps[j] == id
  {
    forall id | InFirst(deps, j + 1, id) && deps[j] != id
      ensures InFirst(deps, j, id)
    {
      var i :| 0 <= i < j + 1 && deps[i] == id;
      assert i < j;
    }
  }

  /** What the first `k` entries of the dependency map contribute. */
  ghost predicate Entered(ids: seq<Id>, dependencies: map<Id, seq<Id>>, keys: seq<Id>, k: nat, edges: Edges) {
    && (forall p: nat, c: nat :: (p, c) in edges <==> (p, c) in Wanted(ids, dependencies) && InFirst(keys, k, ids[c]))
    && (forall id :: InFirst(keys, k, id) ==> !SelfDependent(ids, dependencies, id))
  }

  /** Builds the graph from the dependency map, visited in any order. */
  method Wire(ids: seq<Id>, positions: map<Id, nat>, dependencies: map<Id, seq<Id>>, keys: seq<Id>)
    returns (indegree: seq<int>, children: seq<seq<nat>>, self: bool, bad: Id)
    requires Finds(ids, positions) && Enumerates(keys, dependencies)
    ensures self ==> SelfDependent(ids, dependencies, bad)
    ensures !self ==> Wired(Wanted(ids, dependencies), |ids|, indegree, children) && forall id ::
        !SelfDependent(ids, dependencies, id)
  {
    indegree, children, self, bad := seq(|ids|, i => 0), seq(|ids|, i => []), false, Empty;
    ghost var edges: Edges := {};
    for k := 0 to |keys|
      invariant !self && Wired(edges, |ids|, indegree, children) && Entered(ids, dependencies, keys, k, edges)
    {
      var child := keys[k];
      FirstGrows(ids, keys, k);
      assert child in keys && !InFirst(keys, k, child);
      if child in positions {
        ghost var before := edges;
        var c := positions[child];
        indegree, children, self, edges := WireChild(ids, positions, dependencies[child], c, indegree, children, edges);
        if self {
          return indegree, children, true, child;
        }
        EnterChild(ids, positions, dependencies, keys, k, before, edges);
      }
    }
    EnteredAll(ids, dependencies, keys, edges);
  }

  lemma EnteredAll(ids: seq<Id>, dependencies: map<Id, seq<Id>>, keys: seq<Id>, edges: Edges)
    requires Enumerates(keys, dependencies) && Entered(ids, dependencies, keys, |keys|, edges)
    ensures edges == Wanted(ids, dependencies) && forall id :: !SelfDependent(ids, dependencies, id)
  {
    forall id | id in dependencies
      ensures InFirst(keys, |keys|, id)
    {
      assert id in keys;
    }
    forall e | e in edges
      ensures e in Wanted(ids, dependencies)
    {
      assert (e.0, e.1) in edges;
    }
    forall e | e in Wanted(ids, dependencies)
      ensures e in edges
    {
      assert (e.0, e.1) in Wanted(ids, dependencies);
    }
  }

  ghost predicate Enumerates(keys: seq<Id>, dependencies: map<Id, seq<Id>>) {
    && (forall id :: id in keys <==> id in dependencies)
    && (forall i, j :: 0 <= i < j < |keys| ==> keys[i] != keys[j])
  }

  lemma EnterChild(ids: seq<Id>, positions: map<Id, nat>, dependencies: map<Id, seq<Id>>, keys: seq<Id>, k: nat,
      before: Edges, edges: Edges)
    requires Finds(ids, positions) && Enumerates(keys, dependencies) && k < |keys| && keys[k] in positions
    requires keys[k] in dependencies
    requires Entered(ids, dependencies, keys, k, before) && keys[k] !in dependencies[keys[k]]
    requires var c := positions[keys[k]]; forall p: nat, d: nat ::
      (p, d) in edges <==> (p, d) in before || (d == c && p < |ids| && ids[p] in dependencies[keys[k]])
    ensures Entered(ids, dependencies, keys, k + 1, edges)
  {
    FirstGrows(ids, keys, k);
  }

  /** Between two emissions: indegrees count what is left, and the heap holds what is open. */
  ghost predicate Ready(edges: Edges, n: nat, live: set<nat>, indegree: seq<int>, eligible: set<nat>) {
    && |indegree| == n && live <= Range(n)
    && (forall v :: v in live ==> indegree[v] == |In(edges, live, v)|)
    && (forall u, v :: u in live && (u, v) in edges ==> v in live)
    && (forall v: nat :: v in eligible <==> v in live && indegree[v] == 0)
  }

  lemma EligibleIsOpen(edges: Edges, n: nat, live: set<nat>, indegree: seq<int>, eligible: set<nat>)
    requires Ready(edges, n, live, indegree, eligible)
    ensures forall v: nat :: v in eligible <==> Open(edges, live, v)
  {
  }

  /** The heap's pop: its least element. */
  method PopLeast(eligible: set<nat>) returns (next: nat, rest: set<nat>)
    requires eligible != {}
    ensures next in eligible && rest == eligible - {next} && forall v :: v in eligible ==> next <= v
  {
    next :| next in eligible;
    var others := eligible - {next};
    while others != {}
      invariant next in eligible && others <= eligible && forall v :: v in eligible && v !in others ==> next <= v
    {
      var v :| v in others;
      next := if v < next then v else next;
      others := others - {v};
    }
    rest := eligible - {next};
  }

  /** Takes `next` out and pushes every child that became eligible. */
  method Release(list: seq<nat>, indegree0: seq<int>, eligible0: set<nat>, next: nat, ghost edges: Edges,
      ghost live: set<nat>)
    returns (indegree: seq<int>, eligible: set<nat>)
    requires Within(edges, |indegree0|) && Ready(edges, |indegree0|, live, indegree0, eligible0 + {next})
    requires next !in eligible0 && Open(edges, live, next) && Childs(edges, next, list)
    ensures |indegree| == |indegree0| && Ready(edges, |indegree|, live - {next}, indegree, eligible)
  {
    indegree, eligible := indegree0, eligible0;
    for j := 0 to |list|
      invariant |indegree| == |indegree0|
      invariant forall v ::
        v in live && v != next ==> indegree[v] == indegree0[v] - (if Among(list, j, v) then 1 else 0)
      invariant forall v: nat :: v in eligible <==> v in live && v != next && indegree[v] == 0
    {
      var child := list[j];
      assert child in list && child in live && child != next && next in In(edges, live, child);
      assert !Among(list, j, child) && indegree[child] > 0;
      indegree := indegree[child := indegree[child] - 1];
      if indegree[child] == 0 {
        eligible := eligible + {child};
      }
    }
    forall v | v in live && v != next
      ensures indegree[v] == |In(edges, live - {next}, v)|
    {
      InShrinks(edges, live, next, v);
    }
  }

  ghost predicate Among(list: seq<nat>, j: nat, v: nat) {
    j <= |list| && exists i :: 0 <= i < j && list[i] == v
  }

  lemma InShrinks(edges: Edges, live: set<nat>, x: nat, v: nat)
    requires x in live
    ensures |In(edges, live - {x}, v)| == |In(edges, live, v)| - (if (x, v) in edges then 1 else 0)
  {
    if (x, v) in edges {
      assert In(edges, live, v) == In(edges, live - {x}, v) + {x};
    } else {
      assert In(edges, live, v) == In(edges, live - {x}, v);
    }
  }

  function Names(ids: seq<Id>, order: seq<nat>): seq<Id>
    requires forall p :: 0 <= p < |order| ==> order[p] < |ids|
  {
    seq(|order|, p requires 0 <= p < |order| => ids[order[p]])
  }

  /** What is emitted so far, and what is still to come. */
  ghost predicate Emitted(ids: seq<Id>, edges: Edges, live: set<nat>, order: seq<nat>, result: seq<Id>) {
    && order + Schedule(edges, live) == Schedule(edges, Range(|ids|))
    && (forall p :: 0 <= p < |order| ==> order[p] < |ids|) && result == Names(ids, order)
  }

  lemma EmitNext(ids: seq<Id>, edges: Edges, live: set<nat>, order: seq<nat>, result: seq<Id>, next: nat)
    requires Emitted(ids, edges, live, order, result) && next < |ids| && Earliest(edges, live, next)
    ensures Emitted(ids, edges, live - {next}, order + [next], result + [ids[next]])
  {
    assert SomeOpen(edges, live) && First(edges, live) == next;
    assert order + [next] + Schedule(edges, live - {next}) == order + Schedule(edges, live);
  }

  /** The transactions without dependencies. */
  method StartHeap(indegree: seq<int>, ghost edges: Edges, children: seq<seq<nat>>) returns (eligible: set<nat>)
    requires Within(edges, |indegree|) && Wired(edges, |indegree|, indegree, children)
    ensures Ready(edges, |indegree|, Range(|indegree|), indegree, eligible)
  {
    eligible := {};
    for i := 0 to |indegree|
      invariant forall v: nat :: v in eligible <==> v < i && indegree[v] == 0
    {
      if indegree[i] == 0 {
        eligible := eligible + {i};
      }
    }
  }

  lemma PopIsEarliest(edges: Edges, n: nat, live: set<nat>, indegree: seq<int>, children: seq<seq<nat>>,
      eligible: set<nat>, next: nat, rest: set<nat>)
    requires Ready(edges, n, live, indegree, eligible) && |children| == n
    requires forall p :: 0 <= p < n ==> Childs(edges, p, children[p])
    requires next in eligible && rest == eligible - {next} && forall v :: v in eligible ==> next <= v
    ensures next < n == |indegree| && next in live && Earliest(edges, live, next) && Open(edges, live, next)
    ensures Ready(edges, n, live, indegree, rest + {next}) && Childs(edges, next, children[next])
  {
    EligibleIsOpen(edges, n, live, indegree, eligible);
    assert rest + {next} == eligible;
  }

  lemma NothingOpen(ids: seq<Id>, edges: Edges, live: set<nat>, indegree: seq<int>, order: seq<nat>, result: seq<Id>)
    requires Ready(edges, |ids|, live, indegree, {}) && Emitted(ids, edges, live, order, result)
    ensures order == Schedule(edges, Range(|ids|)) && Distinct(|ids|, order) && result == Names(ids, order)
  {
    EligibleIsOpen(edges, |ids|, live, indegree, {});
    assert order + [] == order;
    ScheduleDistinct(edges, |ids|);
  }

  /** Kahn's algorithm on the graph. */
  method Drain(ids: seq<Id>, indegree0: seq<int>, children: seq<seq<nat>>, ghost edges: Edges)
      returns (result: seq<Id>, ghost order: seq<nat>)
    requires Within(edges, |ids|) && |indegree0| == |children| == |ids| && Wired(edges, |ids|, indegree0, children)
    ensures order == Schedule(edges, Range(|ids|)) && Distinct(|ids|, order) && result == Names(ids, order)
  {
    var indegree := indegree0;
    var eligible := StartHeap(indegree0, edges, children);
    result, order := [], [];
    ghost var live := Range(|ids|);
    assert [] + Schedule(edges, live) == Schedule(edges, live) && Emitted(ids, edges, live, order, result);
    hide *;
    while eligible != {}
      invariant |indegree| == |ids| && Ready(edges, |ids|, live, indegree, eligible)
      invariant Emitted(ids, edges, live, order, result)
      decreases |live|
    {
      var next, rest := PopLeast(eligible);
      PopIsEarliest(edges, |ids|, live, indegree, children, eligible, next, rest);
      EmitNext(ids, edges, live, order, result, next);
      result := result + [ids[next]];
      order := order + [next];
      indegree, eligible := Release(children[next], indegree, rest, next, edges, live);
      live := live - {next};
    }
    NothingOpen(ids, edges, live, indegree, order, result);
  }

  /** `metaTrackBlockingOrderV1`. The dependency map may be visited in any order `keys`. */
  method BlockingOrder(ids: seq<Id>, dependencies: map<Id, seq<Id>>, keys: seq<Id>) returns (r: Outcome)
    requires Enumerates(keys, dependencies)
    ensures r.EmptyId? || r.Duplicate? <==> !Usable(ids)
    ensures r.EmptyId? <==> exists i: nat :: FirstBad(ids, i) && ids[i] == Empty
    ensures r.Duplicate? ==> exists i: nat :: FirstBad(ids, i) && ids[i] == r.id != Empty
    ensures r.SelfDependency? ==> SelfDependent(ids, dependencies, r.id)
    ensures r.SelfDependency? <==> Usable(ids) && exists id :: SelfDependent(ids, dependencies, id)
    ensures Usable(ids) && (forall id :: !SelfDependent(ids, dependencies, id))
        ==> (r.CycleFound? <==> Cyclic(Wanted(ids, dependencies)))
    ensures r.Ordered?
      ==> var order := Schedule(Wanted(ids, dependencies), Range(|ids|));
        |order| == |ids| && Distinct(|ids|, order) && r.ids == Names(ids, order)
  {
    var positions, failed, bad := Positions(ids);
    if failed {
      ghost var i: nat :| FirstBad(ids, i) && ids[i] == bad;
      forall j: nat | FirstBad(ids, j)
        ensures j == i
      {
        OneFirstBad(ids, i, j);
      }
      return if bad == Empty then EmptyId else Duplicate(bad);
    }
    forall j: nat
      ensures !FirstBad(ids, j)
    {
      NoneBad(ids, j);
    }
    hide FirstBad;
    var indegree, children, self, child := Wire(ids, positions, dependencies, keys);
    if self {
      return SelfDependency(child);
    }
    ghost var edges := Wanted(ids, dependencies);
    var result, order := Drain(ids, indegree, children, edges);
    CompleteIffAcyclic(edges, |ids|);
    if |result| != |ids| {
      return CycleFound;
    }
    return Ordered(result);
  }
}
