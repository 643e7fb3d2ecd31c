/** Co-access routing: keys that are often used together are joined into groups of bounded size,
    and each group is placed on the least loaded shard.

    A key is represented by its rank among all strings in use, so that comparing keys is
    comparing ranks; rank zero is the empty string. */
module CoAccess {

  import opened Basics

  // ---- Union-find ----

  /** Parent links lead to smaller or equal keys. */
  ghost predicate Linked(parent: map<nat, nat>) {
    forall k {:trigger parent[k]} :: k in parent ==> parent[k] in parent && parent[k] <= k
  }

  ghost function Root(parent: map<nat, nat>, k: nat): (r: nat)
    requires Linked(parent) && k in parent
    ensures r in parent && parent[r] == r && r <= k
    decreases k
  {
    if parent[k] == k then k else Root(parent, parent[k])
  }

  ghost function Group(parent: map<nat, nat>, r: nat): set<nat>
    requires Linked(parent)
  {
    set k | k in parent && Root(parent, k) == r
  }

  ghost predicate Sized(parent: map<nat, nat>, size: map<nat, nat>) {
    && Linked(parent) && size.Keys == parent.Keys
    && forall r {:trigger Group(parent, r)} {:trigger size[r]} ::
      r in parent && parent[r] == r ==> size[r] == |Group(parent, r)|
  }

  /** The same groups with the same roots. */
  ghost predicate SameRoots(p: map<nat, nat>, p': map<nat, nat>) {
    && Linked(p) && Linked(p') && p.Keys == p'.Keys
    && forall k {:trigger Root(p', k)} {:trigger Root(p, k)} :: k in p ==> Root(p', k) == Root(p, k)
  }

  lemma {:induction false} CompressAt(p: map<nat, nat>, k: nat, j: nat)
    requires Linked(p) && k in p && j in p && Linked(p[k := Root(p, k)])
    ensures Root(p[k := Root(p, k)], j) == Root(p, j)
    decreases j
  {
    var p' := p[k := Root(p, k)];
    if p'[j] != j {
      CompressAt(p, k, p'[j]);
    }
  }

  lemma CompressLinks(p: map<nat, nat>, k: nat)
    requires Linked(p) && k in p
    ensures Linked(p[k := Root(p, k)])
  {
    hide Root;
    RelinkDown(p, k, Root(p, k));
    hide Linked;
  }

  lemma RelinkDown(p: map<nat, nat>, k: nat, r: nat)
    requires Linked(p) && k in p && r in p && r <= k
    ensures Linked(p[k := r])
  {
  }

  /** Path compression changes no root. */
  lemma Compress(p: map<nat, nat>, k: nat)
    requires Linked(p) && k in p
    ensures SameRoots(p, p[k := Root(p, k)])
  {
    hide Linked; hide Root;
    CompressLinks(p, k);
    var p' := p[k := Root(p, k)];
    forall j {:trigger Root(p', j)} {:trigger Root(p, j)} | j in p
      ensures Root(p', j) == Root(p, j)
    {
      CompressAt(p, k, j);
    }
  }

  lemma SameSizes(p: map<nat, nat>, p': map<nat, nat>, size: map<nat, nat>)
    requires SameRoots(p, p') && Sized(p, size)
    ensures Sized(p', size)
  {
    hide Linked; hide Root;
    forall r | r in p' && p'[r] == r
      ensures size[r] == |Group(p', r)|
    {
      RootIsRoot(p', r);
      assert Group(p', r) == Group(p, r);
    }
  }

  lemma RootIsRoot(p: map<nat, nat>, r: nat)
    requires Linked(p) && r in p && p[r] == r
    ensures Root(p, r) == r
  {
  }

  lemma {:induction false} JoinAt(p: map<nat, nat>, a: nat, b: nat, j: nat)
    requires Linked(p) && a in p && b in p && p[a] == a && p[b] == b && a < b && j in p
    ensures Linked(p[b := a]) && Root(p[b := a], j) == if Root(p, j) == b then a else Root(p, j)
    decreases j
  {
    var p' := p[b := a];
    if j != b && p[j] != j {
      JoinAt(p, a, b, p[j]);
    }
  }

  /** Linking one root below another joins their two groups and no others. */
  lemma JoinGroup(p: map<nat, nat>, a: nat, b: nat, r: nat)
    requires Linked(p) && a in p && b in p && p[a] == a && p[b] == b && a < b
    ensures Linked(p[b := a])
    ensures Group(p[b := a], r) == if r == a then Group(p, a) + Group(p, b) else if r == b then {} else Group(p, r)
  {
    var p' := p[b := a];
    JoinAt(p, a, b, a);
    hide Linked; hide Root;
    forall j {:trigger Root(p', j)} {:trigger Root(p, j)} | j in p
      ensures Root(p', j) == if Root(p, j) == b then a else Root(p, j)
    {
      JoinAt(p, a, b, j);
    }
    if r == a {
      assert Group(p', a) == Group(p, a) + Group(p, b);
    } else if r == b {
      assert Group(p', b) == {};
    } else {
      assert Group(p', r) == Group(p, r);
    }
  }

  lemma GroupsApart(p: map<nat, nat>, a: nat, b: nat)
    requires Linked(p) && a != b
    ensures |Group(p, a) + Group(p, b)| == |Group(p, a)| + |Group(p, b)|
  {
    hide Linked; hide Root;
    assert Group(p, a) !! Group(p, b);
  }

  lemma Join(p: map<nat, nat>, size: map<nat, nat>, a: nat, b: nat)
    requires Sized(p, size) && a in p && b in p && p[a] == a && p[b] == b && a < b
    ensures Sized(p[b := a], size[a := size[a] + size[b]])
  {
    hide Linked; hide Root; hide Group;
    var p', size' := p[b := a], size[a := size[a] + size[b]];
    JoinGroup(p, a, b, a);
    GroupsApart(p, a, b);
    forall r | r in p' && p'[r] == r
      ensures size'[r] == |Group(p', r)|
    {
      JoinGroup(p, a, b, r);
    }
  }

  lemma Descends(p: map<nat, nat>, k: nat)
    requires Linked(p) && k in p && p[k] != k
    ensures p[k] in p && p[k] < k && Root(p, k) == Root(p, p[k])
  {
  }

  lemma FindStep(before: map<nat, nat>, mid: map<nat, nat>, size: map<nat, nat>, k: nat, top: nat)
    requires SameRoots(before, mid) && Sized(mid, size) && k in before && before[k] in before
    requires Root(before, k) == Root(before, before[k]) && top == Root(mid, before[k])
    ensures Sized(mid[k := top], size) && SameRoots(before, mid[k := top])
    ensures top == Root(mid[k := top], k) == Root(before, k)
  {
    hide Linked; hide Root;
    assert top == Root(before, k) == Root(mid, k);
    Compress(mid, k);
    SameSizes(mid, mid[k := top], size);
    assert Root(mid[k := top], k) == Root(mid, k);
  }

  lemma IsLinked(p: map<nat, nat>, size: map<nat, nat>)
    requires Sized(p, size)
    ensures Linked(p)
  {
  }

  lemma AtRoot(p: map<nat, nat>, k: nat)
    requires Linked(p) && k in p && p[k] == k
    ensures Root(p, k) == k && SameRoots(p, p)
  {
  }

  class Forest {
    var parent: map<nat, nat>
    var size: map<nat, nat>

    /** Every key is a group of its own. */
    constructor (keys: seq<nat>)
      ensures Sized(parent, size) && (forall k :: k in parent <==> k in keys) && Capped(parent, 1)
      ensures forall k :: k in parent ==> parent[k] == k
    {
      parent := map k | k in keys :: k;
      size := map k | k in keys :: 1;
      new;
      assert Linked(parent);
      forall r | r in parent
        ensures |Group(parent, r)| == 1
      {
        assert Group(parent, r) == {r};
      }
    }

    /** Finds the root and shortens the path to it. */
    method Find(k: nat) returns (r: nat)
      requires Sized(parent, size) && k in parent
      modifies `parent
      ensures Sized(parent, size) && SameRoots(old(parent), parent) && r == Root(parent, k) == Root(old(parent), k)
      decreases k
    {
      hide *;
      IsLinked(parent, size);
      if parent[k] != k {
        ghost var before := parent;
        Descends(before, k);
        var top := Find(parent[k]);
        FindStep(before, parent, size, k, top);
        parent := parent[k := top];
        r := top;
      } else {
        AtRoot(parent, k);
        r := k;
      }
    }

    /** Joins the groups of every pair, as long as the joint group stays within the limit. */
    method Merge(pairs: seq<(nat, nat)>, maxGroupSize: nat)
      requires (forall p :: 0 <= p < |pairs| ==> pairs[p].0 in parent && pairs[p].1 in parent)
      requires Sized(parent, size) && Capped(parent, maxGroupSize) && Tied(parent, pairs, 0)
      modifies `parent, `size
      ensures Sized(parent, size) && Capped(parent, maxGroupSize)
      ensures Merged(old(parent), parent, pairs, |pairs|, maxGroupSize)
    {
      assert Merged(parent, parent, pairs, 0, maxGroupSize);
      hide *;
      for p := 0 to |pairs|
        invariant Sized(parent, size) && Capped(parent, maxGroupSize) && parent.Keys == old(parent).Keys
        invariant Merged(old(parent), parent, pairs, p, maxGroupSize)
      {
        ghost var before := parent;
        MergeOne(pairs[p].0, pairs[p].1, maxGroupSize);
        MergedNext(old(parent), before, parent, pairs, p, maxGroupSize);
      }
    }

    method MergeOne(x: nat, y: nat, maxGroupSize: nat)
      requires Sized(parent, size) && Capped(parent, maxGroupSize) && x in parent && y in parent
      modifies `parent, `size
      ensures Sized(parent, size) && Capped(parent, maxGroupSize) && parent.Keys == old(parent).Keys
      ensures Coarser(old(parent), parent) && Settled(parent, maxGroupSize, x, y)
      ensures MergeStep(old(parent), parent, x, y, maxGroupSize)
    {
      hide *;
      ghost var before := parent;
      var a := Find(x);
      SameKeys(before, parent);
      ghost var once := parent;
      var b := Find(y);
      SameKeys(once, parent);
      SameAgain(before, once, parent);
      SameSplices(before, parent, x, y);
      FoundBoth(before, once, parent, size, x, y, a, b, maxGroupSize);
      if a != b && size[a] + size[b] <= maxGroupSize {
        if a > b {
          a, b := b, a;
        }
        Joined(before, parent, size, x, y, a, b, maxGroupSize);
        JoinSplices(before, parent, x, y, a, b);
        StepJoins(before, parent[b := a], x, y, maxGroupSize);
        parent := parent[b := a];
        size := size[a := size[a] + size[b]];
      } else {
        StepKeeps(before, parent, x, y, maxGroupSize);
      }
    }

    /** Lists the members of every group; compression goes on meanwhile. */
    method Collect(keys: seq<nat>) returns (groups: map<nat, seq<nat>>)
      requires Sized(parent, size) && Ascending(keys) && forall k: nat :: k in keys <==> k in parent
      modifies `parent
      ensures Sized(parent, size) && SameRoots(old(parent), parent) && Listed(parent, groups)
    {
      groups := map[];
      ghost var before := parent;
      hide *;
      IsLinked(parent, size);
      SameSelf(parent);
      NothingSorted(parent, keys);
      for p := 0 to |keys|
        invariant Sized(parent, size) && SameRoots(before, parent) && Sorting(before, groups, keys, p)
      {
        assert keys[p] in keys;
        SameKeys(before, parent);
        ghost var mid := parent;
        var r := Find(keys[p]);
        SameAgain(before, mid, parent);
        SameRootAbove(before, mid, keys[p]);
        SortOne(before, groups, keys, p, r);
        groups := groups[r := ListAt(groups, r) + [keys[p]]];
      }
      AllSorted(before, parent, groups, keys);
    }
  }

  function ListAt(groups: map<nat, seq<nat>>, r: nat): seq<nat> {
    if r in groups then groups[r] else []
  }

  /** The first `p` keys have been put into the list of their root. */
  ghost predicate Sorting(parent: map<nat, nat>, groups: map<nat, seq<nat>>, keys: seq<nat>, p: nat) {
    && Linked(parent) && p <= |keys|
    && (forall r :: r in groups ==> groups[r] != [] && Ascending(groups[r]))
    && (forall r: nat, k: nat {:trigger k in ListAt(groups, r)} :: k in ListAt(groups, r)
          <==> Early(keys, p, k) && k in parent && Root(parent, k) == r)
  }

  ghost predicate Early(keys: seq<nat>, p: nat, k: nat) {
    p <= |keys| && exists i :: 0 <= i < p && keys[i] == k
  }

  lemma SameRootAbove(p: map<nat, nat>, p1: map<nat, nat>, k: nat)
    requires SameRoots(p, p1) && k in p
    ensures k in p1 && Root(p1, k) == Root(p, k)
  {
    hide Linked; hide Root;
  }

  lemma SameSelf(p: map<nat, nat>)
    requires Linked(p)
    ensures SameRoots(p, p)
  {
  }

  lemma SameAgain(p: map<nat, nat>, p1: map<nat, nat>, p2: map<nat, nat>)
    requires SameRoots(p, p1) && SameRoots(p1, p2)
    ensures SameRoots(p, p2)
  {
    hide Linked; hide Root;
  }

  lemma SortOne(parent: map<nat, nat>, groups: map<nat, seq<nat>>, keys: seq<nat>, p: nat, r: nat)
    requires Sorting(parent, groups, keys, p) && p < |keys| && Ascending(keys) && keys[p] in parent
    requires r == Root(parent, keys[p])
    ensures Sorting(parent, groups[r := ListAt(groups, r) + [keys[p]]], keys, p + 1)
  {
    var groups' := groups[r := ListAt(groups, r) + [keys[p]]];
    hide Linked; hide Root; hide Early; hide Ascending;
    SortAscending(parent, groups, keys, p, r);
    forall q: nat, k: nat {:trigger k in ListAt(groups', q)}
      ensures k in ListAt(groups', q) <==> Early(keys, p + 1, k) && k in parent && Root(parent, k) == q
    {
      SortOneAt(parent, groups, keys, p, r, q, k);
    }
  }

  lemma NothingSorted(parent: map<nat, nat>, keys: seq<nat>)
    requires Linked(parent)
    ensures Sorting(parent, map[], keys, 0)
  {
    hide Linked; hide Root;
  }

  lemma SortAscending(parent: map<nat, nat>, groups: map<nat, seq<nat>>, keys: seq<nat>, p: nat, r: nat)
    requires Sorting(parent, groups, keys, p) && p < |keys| && Ascending(keys)
    ensures Ascending(ListAt(groups, r) + [keys[p]])
  {
    hide Linked; hide Root;
    var list := ListAt(groups, r);
    forall i | 0 <= i < |list|
      ensures list[i] < keys[p]
    {
      assert list[i] in ListAt(groups, r) && Early(keys, p, list[i]);
    }
  }

  lemma SortOneAt(parent: map<nat, nat>, groups: map<nat, seq<nat>>, keys: seq<nat>, p: nat, r: nat, q: nat, k: nat)
    requires Sorting(parent, groups, keys, p) && p < |keys| && keys[p] in parent && r == Root(parent, keys[p])
    ensures k in ListAt(groups[r := ListAt(groups, r) + [keys[p]]], q)
      <==> Early(keys, p + 1, k) && k in parent && Root(parent, k) == q
  {
    hide Linked; hide Root;
    EarlyNext(keys, p);
    assert k in ListAt(groups, q) <==> Early(keys, p, k) && k in parent && Root(parent, k) == q;
  }

  lemma EarlyNext(keys: seq<nat>, p: nat)
    requires p < |keys|
    ensures forall k: nat :: Early(keys, p + 1, k) <==> Early(keys, p, k) || k == keys[p]
  {
    forall k: nat | Early(keys, p + 1, k) && k != keys[p]
      ensures Early(keys, p, k)
    {
      var i :| 0 <= i < p + 1 && keys[i] == k;
      assert i < p;
    }
  }

  lemma AllSorted(before: map<nat, nat>, parent: map<nat, nat>, groups: map<nat, seq<nat>>, keys: seq<nat>)
    requires Sorting(before, groups, keys, |keys|) && SameRoots(before, parent)
    requires forall k: nat :: k in keys <==> k in before
    ensures Listed(parent, groups)
  {
    hide Linked; hide Root;
    forall k: nat
      ensures Early(keys, |keys|, k) <==> k in before
    {
      assert k in keys <==> k in before;
    }
    forall r: nat
      ensures r in groups <==> r in parent && parent[r] == r
    {
      if r in groups {
        assert groups[r][0] in ListAt(groups, r);
        assert Root(parent, groups[r][0]) == r;
      }
      if r in parent && parent[r] == r {
        RootIsRoot(parent, r);
        assert Root(before, r) == r && r in ListAt(groups, r);
      }
    }
    forall r | r in groups
      ensures ListsGroup(parent, r, groups[r])
    {
      forall k: nat
        ensures k in groups[r] <==> k in Group(parent, r)
      {
        assert k in ListAt(groups, r) <==> Early(keys, |keys|, k) && k in before && Root(before, k) == r;
      }
    }
  }

  // ---- Properties of the grouping ----

  /** Two keys that may be joined because they are listed as a pair among the first `n`. */
  ghost predicate Pair(pairs: seq<(nat, nat)>, n: nat, x: nat, y: nat) {
    n <= |pairs| && exists i :: 0 <= i < n && (pairs[i] == (x, y) || pairs[i] == (y, x))
  }

  ghost predicate Chain(pairs: seq<(nat, nat)>, n: nat, c: seq<nat>) {
    c != [] && forall i :: 0 <= i < |c| - 1 ==> Pair(pairs, n, c[i], c[i + 1])
  }

  /** A chain of listed pairs leads from one key to the other. */
  ghost predicate Connected(pairs: seq<(nat, nat)>, n: nat, x: nat, y: nat) {
    exists c :: Chain(pairs, n, c) && c[0] == x && c[|c| - 1] == y
  }

  /** Keys of one group are connected. */
  ghost predicate Tied(parent: map<nat, nat>, pairs: seq<(nat, nat)>, n: nat) {
    Linked(parent) && forall j, k {:trigger Root(parent, j), Root(parent, k)} ::
      j in parent && k in parent && Root(parent, j) == Root(parent, k) ==> Connected(pairs, n, j, k)
  }

  /** Only the groups of `x` and `y` may have come together. */
  ghost predicate Splices(p: map<nat, nat>, p': map<nat, nat>, x: nat, y: nat) {
    && Linked(p) && Linked(p') && p.Keys == p'.Keys && x in p && y in p
    && forall j, k {:trigger Root(p', j), Root(p', k)} :: j in p && k in p && Root(p', j) == Root(p', k) ==>
      Root(p, j) == Root(p, k) || (Root(p, j) == Root(p, x) && Root(p, k) == Root(p, y)) || (Root(p, j) == Root(p, y)
        && Root(p, k) == Root(p, x))
  }

  /** Two groups that may be joined. */
  ghost predicate Fits(p: map<nat, nat>, x: nat, y: nat, maxGroupSize: nat) {
    Linked(p) && x in p && y in p && Root(p, x) != Root(p, y) && |GroupOf(p, x)| + |GroupOf(p, y)| <= maxGroupSize
  }

  /** A pair is joined exactly if its groups are apart and fit together; nothing else happens. */
  ghost predicate MergeStep(p: map<nat, nat>, p': map<nat, nat>, x: nat, y: nat, maxGroupSize: nat) {
    Splices(p, p', x, y) && if Fits(p, x, y, maxGroupSize) then Root(p', x) == Root(p', y) else SameRoots(p, p')
  }

  /** The forest `p` comes from `start` by joining the first `n` pairs in order. */
  ghost predicate Built(start: map<nat, nat>, p: map<nat, nat>, pairs: seq<(nat, nat)>, n: nat, maxGroupSize: nat)
    decreases n
  {
    n <= |pairs| && if n == 0 then p == start else var i := n - 1; exists q ::
      PairStep(q, p, pairs, i, maxGroupSize) && Built(start, q, pairs, i, maxGroupSize)
  }

  ghost predicate PairStep(q: map<nat, nat>, p: map<nat, nat>, pairs: seq<(nat, nat)>, i: nat, maxGroupSize: nat) {
    i < |pairs| && MergeStep(q, p, pairs[i].0, pairs[i].1, maxGroupSize)
  }

  /** What joining the first `n` pairs has led to. */
  ghost predicate Merged(start: map<nat, nat>, p: map<nat, nat>, pairs: seq<(nat, nat)>, n: nat, maxGroupSize: nat) {
    && n <= |pairs| && p.Keys == start.Keys && Built(start, p, pairs, n, maxGroupSize) && Tied(p, pairs, n)
    && forall q :: 0 <= q < n ==> Settled(p, maxGroupSize, pairs[q].0, pairs[q].1)
  }

  lemma MergedNext(start: map<nat, nat>, p: map<nat, nat>, p': map<nat, nat>, pairs: seq<(nat, nat)>, n: nat,
      maxGroupSize: nat)
    requires Merged(start, p, pairs, n, maxGroupSize) && n < |pairs| && p.Keys == p'.Keys
    requires Coarser(p, p') && Settled(p', maxGroupSize, pairs[n].0, pairs[n].1)
    requires MergeStep(p, p', pairs[n].0, pairs[n].1, maxGroupSize)
    ensures Merged(start, p', pairs, n + 1, maxGroupSize)
  {
    hide Tied; hide Settled; hide Coarser; hide MergeStep; hide Built;
    StepSplices(p, p', pairs[n].0, pairs[n].1, maxGroupSize);
    TiedNext(p, p', pairs, n);
    BuiltNext(start, p, p', pairs, n, maxGroupSize);
    forall q | 0 <= q < n
      ensures Settled(p', maxGroupSize, pairs[q].0, pairs[q].1)
    {
      SettledStays(p, p', maxGroupSize, pairs[q].0, pairs[q].1);
    }
  }

  lemma BuiltNext(start: map<nat, nat>, p: map<nat, nat>, p': map<nat, nat>, pairs: seq<(nat, nat)>, n: nat,
      maxGroupSize: nat)
    requires Built(start, p, pairs, n, maxGroupSize) && n < |pairs|
    requires MergeStep(p, p', pairs[n].0, pairs[n].1, maxGroupSize)
    ensures Built(start, p', pairs, n + 1, maxGroupSize)
  {
    hide MergeStep;
    assert PairStep(p, p', pairs, n, maxGroupSize);
  }

  lemma StepSplices(p: map<nat, nat>, p': map<nat, nat>, x: nat, y: nat, maxGroupSize: nat)
    requires MergeStep(p, p', x, y, maxGroupSize)
    ensures Splices(p, p', x, y)
  {
  }

  lemma StepJoins(p: map<nat, nat>, p': map<nat, nat>, x: nat, y: nat, maxGroupSize: nat)
    requires Splices(p, p', x, y) && Fits(p, x, y, maxGroupSize) && Root(p', x) == Root(p', y)
    ensures MergeStep(p, p', x, y, maxGroupSize)
  {
  }

  lemma StepKeeps(p: map<nat, nat>, p': map<nat, nat>, x: nat, y: nat, maxGroupSize: nat)
    requires Splices(p, p', x, y) && !Fits(p, x, y, maxGroupSize) && SameRoots(p, p')
    ensures MergeStep(p, p', x, y, maxGroupSize)
  {
  }

  lemma SameSplices(p: map<nat, nat>, p': map<nat, nat>, x: nat, y: nat)
    requires SameRoots(p, p') && x in p && y in p
    ensures Splices(p, p', x, y)
  {
    hide Linked; hide Root;
  }

  lemma JoinSplices(before: map<nat, nat>, p: map<nat, nat>, x: nat, y: nat, a: nat, b: nat)
    requires SameRoots(before, p) && x in p && y in p && a in p && b in p && p[a] == a && p[b] == b && a < b
    requires (a == Root(p, x) && b == Root(p, y)) || (b == Root(p, x) && a == Root(p, y))
    ensures Splices(before, p[b := a], x, y)
  {
    hide Linked; hide Root;
    JoinAt(p, a, b, a);
    var p' := p[b := a];
    forall j, k {:trigger Root(p', j), Root(p', k)} | j in before && k in before && Root(p', j) == Root(p', k)
      ensures Root(before, j) == Root(before, k) || (Root(before, j) == Root(before, x)
          && Root(before, k) == Root(before, y)) || (Root(before, j) == Root(before, y)
          && Root(before, k) == Root(before, x))
    {
      JoinAt(p, a, b, j);
      JoinAt(p, a, b, k);
    }
  }

  lemma ChainMore(pairs: seq<(nat, nat)>, n: nat, x: nat, y: nat)
    requires Connected(pairs, n, x, y) && n < |pairs|
    ensures Connected(pairs, n + 1, x, y)
  {
    var c :| Chain(pairs, n, c) && c[0] == x && c[|c| - 1] == y;
    forall i | 0 <= i < |c| - 1
      ensures Pair(pairs, n + 1, c[i], c[i + 1])
    {
      assert Pair(pairs, n, c[i], c[i + 1]);
    }
    assert Chain(pairs, n + 1, c);
  }

  lemma ChainJoin(pairs: seq<(nat, nat)>, n: nat, x: nat, y: nat, z: nat, w: nat)
    requires Connected(pairs, n, x, y) && Pair(pairs, n, y, z) && Connected(pairs, n, z, w)
    ensures Connected(pairs, n, x, w)
  {
    var c :| Chain(pairs, n, c) && c[0] == x && c[|c| - 1] == y;
    var d :| Chain(pairs, n, d) && d[0] == z && d[|d| - 1] == w;
    var e := c + d;
    forall i | 0 <= i < |e| - 1
      ensures Pair(pairs, n, e[i], e[i + 1])
    {
      if i < |c| - 1 {
        assert Pair(pairs, n, c[i], c[i + 1]);
      } else if i >= |c| {
        assert Pair(pairs, n, d[i - |c|], d[i - |c| + 1]);
      }
    }
    assert Chain(pairs, n, e) && e[0] == x && e[|e| - 1] == w;
  }

  lemma TiedNext(p: map<nat, nat>, p': map<nat, nat>, pairs: seq<(nat, nat)>, n: nat)
    requires Tied(p, pairs, n) && n < |pairs| && Splices(p, p', pairs[n].0, pairs[n].1)
    ensures Tied(p', pairs, n + 1)
  {
    hide Linked; hide Root; hide Connected;
    var x, y := pairs[n].0, pairs[n].1;
    assert Pair(pairs, n + 1, x, y) && Pair(pairs, n + 1, y, x);
    forall j, k {:trigger Root(p', j), Root(p', k)} | j in p' && k in p' && Root(p', j) == Root(p', k)
      ensures Connected(pairs, n + 1, j, k)
    {
      if Root(p, j) == Root(p, k) {
        ChainMore(pairs, n, j, k);
      } else if Root(p, j) == Root(p, x) {
        ChainMore(pairs, n, j, x);
        ChainMore(pairs, n, y, k);
        ChainJoin(pairs, n + 1, j, x, y, k);
      } else {
        ChainMore(pairs, n, j, y);
        ChainMore(pairs, n, x, k);
        ChainJoin(pairs, n + 1, j, y, x, k);
      }
    }
  }

  lemma TiedSame(p: map<nat, nat>, p': map<nat, nat>, pairs: seq<(nat, nat)>, n: nat)
    requires Tied(p, pairs, n) && SameRoots(p, p')
    ensures Tied(p', pairs, n)
  {
    hide Linked; hide Root; hide Connected;
  }

  /** At first every key is alone. */
  lemma TiedStart(p: map<nat, nat>, pairs: seq<(nat, nat)>)
    requires Linked(p) && forall k :: k in p ==> p[k] == k
    ensures Tied(p, pairs, 0)
  {
    hide Linked;
    forall k | k in p
      ensures Root(p, k) == k && Connected(pairs, 0, k, k)
    {
      RootIsRoot(p, k);
      assert Chain(pairs, 0, [k]);
    }
  }

  ghost function GroupOf(parent: map<nat, nat>, k: nat): set<nat>
    requires Linked(parent) && k in parent
  {
    Group(parent, Root(parent, k))
  }

  ghost predicate Capped(parent: map<nat, nat>, maxGroupSize: nat) {
    Linked(parent) && forall r {:trigger Group(parent, r)} ::
      r in parent && parent[r] == r ==> |Group(parent, r)| <= maxGroupSize
  }

  /** Two keys are together, or their groups are too large to be joined. */
  ghost predicate Settled(parent: map<nat, nat>, maxGroupSize: nat, x: nat, y: nat) {
    && Linked(parent) && x in parent && y in parent
    && (Root(parent, x) == Root(parent, y) || |GroupOf(parent, x)| + |GroupOf(parent, y)| > maxGroupSize)
  }

  /** Groups have only grown. */
  ghost predicate Coarser(p: map<nat, nat>, p': map<nat, nat>) {
    && Linked(p) && Linked(p') && p.Keys == p'.Keys
    && forall k {:trigger GroupOf(p', k)} {:trigger GroupOf(p, k)} :: k in p ==> GroupOf(p, k) <= GroupOf(p', k)
  }

  lemma SameGroup(p: map<nat, nat>, x: nat, y: nat)
    requires Linked(p) && x in p && y in p
    ensures Root(p, x) == Root(p, y) <==> y in GroupOf(p, x)
  {
    hide Root; hide Linked;
  }

  lemma SettledStays(p: map<nat, nat>, p': map<nat, nat>, maxGroupSize: nat, x: nat, y: nat)
    requires Coarser(p, p') && Settled(p, maxGroupSize, x, y)
    ensures Settled(p', maxGroupSize, x, y)
  {
    hide Root; hide Linked; hide GroupOf;
    SameGroup(p, x, y);
    SameGroup(p', x, y);
    Smaller(GroupOf(p, x), GroupOf(p', x));
    Smaller(GroupOf(p, y), GroupOf(p', y));
  }

  lemma SameKeys(p: map<nat, nat>, p': map<nat, nat>)
    requires SameRoots(p, p')
    ensures p.Keys == p'.Keys
  {
  }

  /** Compression keeps groups, so it keeps everything said about them. */
  lemma FoundBoth(before: map<nat, nat>, once: map<nat, nat>, p: map<nat, nat>, size: map<nat, nat>, x: nat, y: nat,
      a: nat, b: nat, maxGroupSize: nat)
    requires SameRoots(before, once) && SameRoots(once, p) && Sized(p, size) && Capped(before, maxGroupSize) && x in p
    requires y in p
    requires a == Root(once, x) && b == Root(p, y)
    ensures a in p && b in p && p[a] == a && p[b] == b && a == Root(p, x) && b == Root(p, y) && a in size && b in size
    ensures Capped(p, maxGroupSize) && Coarser(before, p)
    ensures a == b || size[a] + size[b] > maxGroupSize ==> Settled(p, maxGroupSize, x, y)
    ensures Fits(before, x, y, maxGroupSize) <==> a != b && size[a] + size[b] <= maxGroupSize
  {
    hide Linked; hide Root;
    forall r
      ensures Group(p, r) == Group(before, r)
    {
    }
    forall r | r in p && p[r] == r
      ensures |Group(p, r)| <= maxGroupSize
    {
      RootIsRoot(p, r);
      assert Root(once, r) == r;
      assert Root(before, r) == r;
      assert before[r] == r;
    }
    assert Root(p, x) == Root(once, x) == Root(before, x) && Root(p, y) == Root(once, y) == Root(before, y);
  }

  /** Joining two groups that fit keeps the limit and settles the pair. */
  lemma Joined(before: map<nat, nat>, p: map<nat, nat>, size: map<nat, nat>, x: nat, y: nat, a: nat, b: nat,
      maxGroupSize: nat)
    requires Sized(p, size) && Capped(p, maxGroupSize) && Coarser(before, p) && x in p && y in p
    requires a in p && b in p && p[a] == a && p[b] == b && a < b && size[a] + size[b] <= maxGroupSize
    requires (a == Root(p, x) && b == Root(p, y)) || (b == Root(p, x) && a == Root(p, y))
    ensures Sized(p[b := a], size[a := size[a] + size[b]]) && Capped(p[b := a], maxGroupSize)
    ensures Coarser(before, p[b := a])
    ensures Settled(p[b := a], maxGroupSize, x, y) && Root(p[b := a], x) == Root(p[b := a], y)
  {
    Join(p, size, a, b);
    hide Linked; hide Root; hide Group; hide Sized;
    JoinAt(p, a, b, x);
    JoinAt(p, a, b, y);
    JoinedCapped(p, size, a, b, maxGroupSize);
    JoinedCoarser(before, p, a, b);
  }

  lemma JoinedCapped(p: map<nat, nat>, size: map<nat, nat>, a: nat, b: nat, maxGroupSize: nat)
    requires Sized(p, size) && a in p && b in p && p[a] == a && p[b] == b && a < b && size[a] + size[b] <= maxGroupSize
    requires Sized(p[b := a], size[a := size[a] + size[b]]) && Capped(p, maxGroupSize)
    ensures Capped(p[b := a], maxGroupSize)
  {
    var p' := p[b := a];
    hide Linked; hide Root; hide Group;
    forall r | r in p' && p'[r] == r
      ensures |Group(p', r)| <= maxGroupSize
    {
      JoinGroup(p, a, b, r);
    }
  }

  lemma JoinedCoarser(before: map<nat, nat>, p: map<nat, nat>, a: nat, b: nat)
    requires Coarser(before, p) && a in p && b in p && p[a] == a && p[b] == b && a < b && Linked(p[b := a])
    ensures Coarser(before, p[b := a])
  {
    var p' := p[b := a];
    hide Linked; hide Root; hide Group;
    forall k {:trigger GroupOf(p', k)} {:trigger GroupOf(before, k)} | k in before
      ensures GroupOf(before, k) <= GroupOf(p', k)
    {
      JoinAt(p, a, b, k);
      JoinGroup(p, a, b, Root(p', k));
      assert GroupOf(before, k) <= GroupOf(p, k) <= GroupOf(p', k);
    }
  }

  // ---- Which keys are used together ----

  ghost predicate Ascending(keys: seq<nat>) {
    forall i, j :: 0 <= i < j < |keys| ==> keys[i] < keys[j]
  }

  /** Drops empty and repeated keys and sorts the rest. */
  method Unique(keys: seq<nat>) returns (out: seq<nat>)
    ensures Ascending(out) && forall k: nat :: k in out <==> k != 0 && k in keys
  {
    var rest: set<nat> := set k | k in keys && k != 0;
    out := [];
    while rest != {}
      invariant Ascending(out) && (forall k: nat :: k in rest || k in out <==> k != 0 && k in keys)
      invariant forall i, k :: 0 <= i < |out| && k in rest ==> out[i] < k
    {
      var least := Least(rest);
      out, rest := out + [least], rest - {least};
    }
  }

  method Least(s: set<nat>) returns (least: nat)
    requires s != {}
    ensures least in s && forall k :: k in s ==> least <= k
  {
    least :| least in s;
    var rest := s - {least};
    while rest != {}
      invariant least in s && rest <= s && forall k :: k in s && k !in rest ==> least <= k
    {
      var k :| k in rest;
      least := if k < least then k else least;
      rest := rest - {k};
    }
  }

  type Weights = map<(nat, nat), nat>

  function At(w: Weights, x: nat, y: nat): nat {
    if (x, y) in w then w[(x, y)] else 0
  }

  /** How many of the first `n` transactions use both keys. */
  ghost function Together(batch: seq<seq<nat>>, x: nat, y: nat, n: nat): nat
    requires n <= |batch|
  {
    if n == 0 then 0 else Together(batch, x, y, n - 1) + if x in batch[n - 1] && y in batch[n - 1] then 1 else 0
  }

  /** The pairs of positions visited when the outer loop is at `i` and the inner one at `j`. */
  ghost predicate Visited(ks: seq<nat>, i: nat, j: nat, x: nat, y: nat) {
    exists a, b :: 0 <= a < b < |ks| && ks[a] == x && ks[b] == y && (a < i || (a == i && b < j))
  }

  ghost predicate Counted(w: Weights, w': Weights, ks: seq<nat>, i: nat, j: nat) {
    forall x: nat, y: nat :: At(w', x, y) == At(w, x, y) + if Visited(ks, i, j, x, y) then 1 else 0
  }

  lemma CountOne(w: Weights, w': Weights, ks: seq<nat>, i: nat, j: nat)
    requires Ascending(ks) && i < j < |ks| && Counted(w, w', ks, i, j)
    ensures Counted(w, w'[(ks[i], ks[j]) := At(w', ks[i], ks[j]) + 1], ks, i, j + 1)
  {
    var w'' := w'[(ks[i], ks[j]) := At(w', ks[i], ks[j]) + 1];
    forall x: nat, y: nat
      ensures At(w'', x, y) == At(w, x, y) + if Visited(ks, i, j + 1, x, y) then 1 else 0
    {
      VisitNext(ks, i, j, x, y);
    }
  }

  lemma VisitNext(ks: seq<nat>, i: nat, j: nat, x: nat, y: nat)
    requires Ascending(ks) && i < j < |ks|
    ensures Visited(ks, i, j + 1, x, y) <==> Visited(ks, i, j, x, y) || (x == ks[i] && y == ks[j])
    ensures !Visited(ks, i, j, ks[i], ks[j])
  {
  }

  method CountPairs(w0: Weights, ks: seq<nat>) returns (w: Weights)
    requires Ascending(ks)
    ensures forall x: nat, y: nat :: At(w, x, y) == At(w0, x, y) + if x < y && x in ks && y in ks then 1 else 0
  {
    w := w0;
    for i := 0 to |ks|
      invariant Counted(w0, w, ks, i, i + 1)
    {
      for j := i + 1 to |ks|
        invariant Counted(w0, w, ks, i, j)
      {
        CountOne(w0, w, ks, i, j);
        w := w[(ks[i], ks[j]) := At(w, ks[i], ks[j]) + 1];
      }
      RowDone(w0, w, ks, i);
    }
    forall x: nat, y: nat
      ensures Visited(ks, |ks|, |ks| + 1, x, y) <==> x < y && x in ks && y in ks
    {
      AllVisited(ks, x, y);
    }
  }

  lemma RowDone(w: Weights, w': Weights, ks: seq<nat>, i: nat)
    requires i < |ks| && Counted(w, w', ks, i, |ks|)
    ensures Counted(w, w', ks, i + 1, i + 2)
  {
    forall x: nat, y: nat
      ensures Visited(ks, i + 1, i + 2, x, y) <==> Visited(ks, i, |ks|, x, y)
    {
    }
  }

  lemma AllVisited(ks: seq<nat>, x: nat, y: nat)
    requires Ascending(ks)
    ensures Visited(ks, |ks|, |ks| + 1, x, y) <==> x < y && x in ks && y in ks
  {
    if x < y && x in ks && y in ks {
      var a :| 0 <= a < |ks| && ks[a] == x;
      var b :| 0 <= b < |ks| && ks[b] == y;
      assert a < b;
    }
  }

  /** The order in which pairs are joined: heavier first, then by name. */
  predicate Sooner(w: Weights, p: (nat, nat), q: (nat, nat)) {
    At(w, p.0, p.1) > At(w, q.0, q.1) || (At(w, p.0, p.1) == At(w, q.0, q.1)
      && (p.0 < q.0 || (p.0 == q.0 && p.1 <= q.1)))
  }

  /** All pairs heavy enough, in that order. */
  method HeavyPairs(w: Weights, minWeight: nat) returns (pairs: seq<(nat, nat)>)
    ensures forall p :: p in pairs <==> p in w && w[p] >= minWeight
    ensures forall i, j :: 0 <= i < j < |pairs| ==> Sooner(w, pairs[i], pairs[j])
  {
    var rest := set p | p in w && w[p] >= minWeight;
    pairs := [];
    while rest != {}
      invariant forall p :: p in rest || p in pairs <==> p in w && w[p] >= minWeight
      invariant forall i, j :: 0 <= i < j < |pairs| ==> Sooner(w, pairs[i], pairs[j])
      invariant forall i, p :: 0 <= i < |pairs| && p in rest ==> Sooner(w, pairs[i], p)
    {
      var first := FirstPair(w, rest);
      pairs, rest := pairs + [first], rest - {first};
    }
  }

  method FirstPair(w: Weights, s: set<(nat, nat)>) returns (first: (nat, nat))
    requires s != {}
    ensures first in s && forall p :: p in s ==> Sooner(w, first, p)
  {
    first :| first in s;
    var rest := s - {first};
    while rest != {}
      invariant first in s && rest <= s && forall p :: p in s && p !in rest ==> Sooner(w, first, p)
    {
      var p :| p in rest;
      first := if Sooner(w, p, first) then p else first;
      rest := rest - {p};
    }
  }

  // ---- Placement ----

  /** Groups by root: the members in increasing order. */
  ghost predicate Listed(parent: map<nat, nat>, groups: map<nat, seq<nat>>) {
    && Linked(parent) && (forall r :: r in groups <==> r in parent && parent[r] == r)
    && forall r :: r in groups ==> ListsGroup(parent, r, groups[r])
  }

  ghost predicate ListsGroup(parent: map<nat, nat>, r: nat, list: seq<nat>)
    requires Linked(parent)
  {
    Ascending(list) && forall k: nat :: k in list <==> k in Group(parent, r)
  }

  /** The root is the first member, so sorting groups by their first member sorts by root. */
  lemma RootFirst(parent: map<nat, nat>, groups: map<nat, seq<nat>>, r: nat)
    requires Listed(parent, groups) && r in groups
    ensures groups[r] != [] && groups[r][0] == r && |groups[r]| == |Group(parent, r)|
  {
    hide Linked; hide Root;
    RootIsRoot(parent, r);
    assert ListsGroup(parent, r, groups[r]) && r in Group(parent, r);
    var i :| 0 <= i < |groups[r]| && groups[r][i] == r;
    assert groups[r][0] in groups[r];
    assert Root(parent, groups[r][0]) == r;
    ListCount(groups[r], Group(parent, r));
  }

  lemma {:induction false} ListCount(list: seq<nat>, s: set<nat>)
    requires Ascending(list) && forall k: nat :: k in list <==> k in s
    ensures |list| == |s|
  {
    if list == [] {
      assert s == {};
    } else {
      var last := list[|list| - 1];
      var rest := list[..|list| - 1];
      assert list == rest + [last] && last !in rest;
      ListCount(rest, s - {last});
    }
  }

  /** Larger groups are placed first. */
  predicate Ahead(groups: map<nat, seq<nat>>, r: nat, q: nat)
    requires r in groups && q in groups
  {
    |groups[r]| > |groups[q]| || (|groups[r]| == |groups[q]| && r <= q)
  }

  /** Every group is placed where the load is least, so loads differ by at most one group. */
  ghost predicate Even(groups: map<nat, seq<nat>>, load: seq<nat>) {
    forall s, t ::
      0 <= s < |load| && 0 <= t < |load| && load[s] > load[t] ==> exists r ::
        r in groups && load[s] - load[t] <= |groups[r]|
  }

  /** The shard with the least load, the first of several; loads are compared after scaling. */
  method LeastLoaded(load: seq<nat>, balanceWeight: real) returns (best: nat)
    requires |load| > 0 && balanceWeight > 0.0
    ensures best < |load|
    ensures forall s :: 0 <= s < |load| ==> load[best] <= load[s] && (load[s] == load[best] ==> best <= s)
  {
    best := 0;
    for s := 1 to |load|
      invariant best < s && forall t :: 0 <= t < s ==> load[best] <= load[t] && (load[t] == load[best] ==> best <= t)
    {
      Scaling(load[s], load[best], balanceWeight);
      if load[s] as real * balanceWeight < load[best] as real * balanceWeight {
        best := s;
      }
    }
  }

  lemma Scaling(a: nat, b: nat, w: real)
    requires w > 0.0
    ensures a as real * w < b as real * w <==> a < b
  {
  }

  ghost function OnShard(m: map<nat, nat>, s: nat): set<nat> {
    set k | k in m && m[k] == s
  }

  /** Keys of one group are on one shard. */
  ghost predicate Whole(parent: map<nat, nat>, m: map<nat, nat>, shards: nat)
    requires Linked(parent)
  {
    && (forall k :: k in m ==> k in parent && m[k] < shards)
    && (forall j, k {:trigger m[j], m[k]} :: j in m && k in m && Root(parent, j) == Root(parent, k) ==> m[j] == m[k])
  }

  /** The groups with roots in `done` are placed as a whole, and loads count keys. */
  ghost predicate Placed(parent: map<nat, nat>, done: set<nat>, m: map<nat, nat>, load: seq<nat>) {
    Linked(parent) && Covers(parent, done, m) && Whole(parent, m, |load|) && Loads(m, load)
  }

  ghost predicate Covers(parent: map<nat, nat>, done: set<nat>, m: map<nat, nat>)
    requires Linked(parent)
  {
    forall k {:trigger k in m} {:trigger Root(parent, k)} :: k in m <==> k in parent && Root(parent, k) in done
  }

  ghost predicate Loads(m: map<nat, nat>, load: seq<nat>) {
    forall s :: 0 <= s < |load| ==> load[s] == |OnShard(m, s)|
  }

  /** `m` with every key of the list moved to one shard. */
  ghost function With(m: map<nat, nat>, list: seq<nat>, shard: nat): (m': map<nat, nat>)
    ensures (forall k: nat :: k in m' <==> k in m || k in list)
    ensures forall k :: k in m' ==> m'[k] == if k in list then shard else m[k]
  {
    m + map k | k in list :: shard
  }

  method AssignAll(m0: map<nat, nat>, list: seq<nat>, shard: nat) returns (m: map<nat, nat>)
    ensures m == With(m0, list, shard)
  {
    m := m0;
    for i := 0 to |list|
      invariant (forall k :: k in m <==> k in m0 || Early(list, i, k))
      invariant forall k :: k in m ==> m[k] == if Early(list, i, k) then shard else m0[k]
    {
      EarlyNext(list, i);
      m := m[list[i] := shard];
    }
    assert forall k: nat :: Early(list, |list|, k) <==> k in list;
  }

  lemma PlaceOne(parent: map<nat, nat>, groups: map<nat, seq<nat>>, done: set<nat>, m: map<nat, nat>, load: seq<nat>,
      r: nat, best: nat)
    requires Listed(parent, groups) && Placed(parent, done, m, load) && r in groups && r !in done && best < |load|
    ensures Placed(parent, done + {r}, With(m, groups[r], best), load[best := load[best] + |groups[r]|])
  {
    hide Linked; hide Root; hide Ascending; hide Listed; hide With; hide Whole; hide Group; hide Covers; hide Loads;
    hide Members;
    RootFirst(parent, groups, r);
    GroupMembers(parent, groups, r);
    PlaceCovers(parent, done, m, groups[r], r, best);
    PlaceWhole(parent, done, m, groups[r], r, |load|, best);
    PlaceLoads(parent, done, m, load, groups[r], r, best);
  }

  ghost predicate Members(parent: map<nat, nat>, r: nat, list: seq<nat>)
    requires Linked(parent)
  {
    forall k: nat {:trigger k in list} {:trigger Root(parent, k)} :: k in list <==> k in parent && Root(parent, k) == r
  }

  lemma PlaceCovers(parent: map<nat, nat>, done: set<nat>, m: map<nat, nat>, list: seq<nat>, r: nat, best: nat)
    requires Linked(parent) && Covers(parent, done, m) && Members(parent, r, list)
    ensures Covers(parent, done + {r}, With(m, list, best))
  {
    hide Linked; hide Root; hide With;
  }

  lemma PlaceLoads(parent: map<nat, nat>, done: set<nat>, m: map<nat, nat>, load: seq<nat>, list: seq<nat>, r: nat,
      best: nat)
    requires Linked(parent) && r !in done && Covers(parent, done, m) && Members(parent, r, list) && Loads(m, load)
    requires best < |load| && |list| == |Group(parent, r)|
    ensures Loads(With(m, list, best), load[best := load[best] + |list|])
  {
    hide Linked; hide Root; hide With; hide Covers; hide Members; hide Group; hide OnShard;
    var m', load' := With(m, list, best), load[best := load[best] + |list|];
    forall s | 0 <= s < |load'|
      ensures load'[s] == |OnShard(m', s)|
    {
      PlaceLoad(parent, done, m, list, r, best, s);
    }
  }

  lemma GroupMembers(parent: map<nat, nat>, groups: map<nat, seq<nat>>, r: nat)
    requires Listed(parent, groups) && r in groups
    ensures Members(parent, r, groups[r])
  {
    assert ListsGroup(parent, r, groups[r]);
    hide Linked; hide Root; hide Ascending;
    forall k: nat {:trigger k in groups[r]} {:trigger Root(parent, k)}
      ensures k in groups[r] <==> k in parent && Root(parent, k) == r
    {
      assert k in groups[r] <==> k in Group(parent, r);
    }
  }

  lemma PlaceWhole(parent: map<nat, nat>, done: set<nat>, m: map<nat, nat>, list: seq<nat>, r: nat, shards: nat,
      best: nat)
    requires Linked(parent) && Whole(parent, m, shards) && best < shards && r !in done
    requires Covers(parent, done, m) && Members(parent, r, list)
    ensures Whole(parent, With(m, list, best), shards)
  {
    hide Linked; hide Root;
  }

  lemma PlaceLoad(parent: map<nat, nat>, done: set<nat>, m: map<nat, nat>, list: seq<nat>, r: nat, best: nat, s: nat)
    requires Linked(parent) && r !in done
    requires Covers(parent, done, m) && Members(parent, r, list)
    ensures |OnShard(With(m, list, best), s)| == |OnShard(m, s)| + if s == best then |Group(parent, r)| else 0
  {
    hide Linked; hide Root; hide With;
    var m' := With(m, list, best);
    if s == best {
      assert OnShard(m', best) == OnShard(m, best) + Group(parent, r);
      assert |OnShard(m, best) + Group(parent, r)| == |OnShard(m, best)| + |Group(parent, r)| by {
        assert OnShard(m, best) !! Group(parent, r);
      }
    } else {
      assert OnShard(m', s) == OnShard(m, s);
    }
  }

  method FirstRoot(groups: map<nat, seq<nat>>, s: set<nat>) returns (first: nat)
    requires s != {} && forall r :: r in s ==> r in groups
    ensures first in s && forall r :: r in s ==> Ahead(groups, first, r)
  {
    first :| first in s;
    var rest := s - {first};
    while rest != {}
      invariant first in s && rest <= s && forall r :: r in s && r !in rest ==> Ahead(groups, first, r)
    {
      var r :| r in rest;
      first := if Ahead(groups, r, first) then r else first;
      rest := rest - {r};
    }
  }

  /** The first of the shards with the least load. */
  ghost predicate Lightest(load: seq<nat>, best: nat) {
    best < |load| && forall s :: 0 <= s < |load| ==> load[best] <= load[s] && (load[s] == load[best] ==> best <= s)
  }

  /** The groups were placed in this order, each on the lightest shard of its time. */
  ghost predicate Placement(groups: map<nat, seq<nat>>, order: seq<nat>, loads: seq<seq<nat>>, m: map<nat, nat>) {
    && |loads| == |order| + 1 && (forall s :: 0 <= s < |loads[0]| ==> loads[0][s] == 0)
    && (forall i :: 0 <= i < |order| ==> PlacedAt(groups, order, loads, m, i))
    && (forall i, j :: 0 <= i < j < |order| ==> Before(groups, order[i], order[j]))
  }

  ghost predicate PlacedAt(groups: map<nat, seq<nat>>, order: seq<nat>, loads: seq<seq<nat>>, m: map<nat, nat>,
      i: nat) {
    && i < |order| && i + 1 < |loads| && order[i] in groups && order[i] in m && Lightest(loads[i], m[order[i]])
    && loads[i + 1] == loads[i][m[order[i]] := loads[i][m[order[i]]] + |groups[order[i]]|]
  }

  ghost predicate Before(groups: map<nat, seq<nat>>, r: nat, q: nat) {
    r in groups && q in groups && r != q && Ahead(groups, r, q)
  }

  /** Of two different groups one comes first: the larger, or of equal ones that of the smaller root. */
  lemma {:induction false} SameLine(groups: map<nat, seq<nat>>, order: seq<nat>, order': seq<nat>, i: nat)
    requires i < |order| && i < |order'| && forall r :: r in order <==> r in order'
    requires forall p, q :: 0 <= p < q < |order| ==> Before(groups, order[p], order[q])
    requires forall p, q :: 0 <= p < q < |order'| ==> Before(groups, order'[p], order'[q])
    ensures order[i] == order'[i]
  {
    forall p | 0 <= p < i
      ensures order[p] == order'[p]
    {
      SameLine(groups, order, order', p);
    }
    assert order'[i] in order' && order[i] in order;
    var p :| 0 <= p < |order| && order[p] == order'[i];
    var q :| 0 <= q < |order'| && order'[q] == order[i];
    assert p >= i by {
      assert p < i ==> Before(groups, order'[p], order'[i]);
    }
    assert q >= i by {
      assert q < i ==> Before(groups, order[q], order[i]);
    }
  }

  lemma SameOrder(groups: map<nat, seq<nat>>, order: seq<nat>, order': seq<nat>)
    requires forall r :: r in order <==> r in order'
    requires forall p, q :: 0 <= p < q < |order| ==> Before(groups, order[p], order[q])
    requires forall p, q :: 0 <= p < q < |order'| ==> Before(groups, order'[p], order'[q])
    ensures order == order'
  {
    var all := set r | r in order;
    DistinctCount(order, all);
    DistinctCount(order', all);
    forall i | 0 <= i < |order|
      ensures order[i] == order'[i]
    {
      SameLine(groups, order, order', i);
    }
  }

  /** Larger groups come first, and of equal ones that with the smaller first key. */
  lemma LargestFirst(parent: map<nat, nat>, groups: map<nat, seq<nat>>, order: seq<nat>, loads: seq<seq<nat>>,
      m: map<nat, nat>, i: nat, j: nat)
    requires Listed(parent, groups) && Placement(groups, order, loads, m) && i < j < |order|
    ensures order[i] in groups && order[j] in groups
    ensures var g, h := groups[order[i]], groups[order[j]];
      g != [] && h != [] && (|g| > |h| || (|g| == |h| && g[0] < h[0]))
  {
    hide Listed; hide PlacedAt;
    assert Before(groups, order[i], order[j]);
    RootFirst(parent, groups, order[i]);
    RootFirst(parent, groups, order[j]);
  }

  /** Groups and number of shards decide order, loads and shard of every group. */
  lemma PlacementDecides(groups: map<nat, seq<nat>>, order: seq<nat>, loads: seq<seq<nat>>, m: map<nat, nat>,
      order': seq<nat>, loads': seq<seq<nat>>, m': map<nat, nat>)
    requires Placement(groups, order, loads, m) && Placement(groups, order', loads', m')
    requires |loads[0]| == |loads'[0]| && (forall r :: r in order <==> r in groups)
    requires forall r :: r in order' <==> r in groups
    ensures order == order' && loads == loads'
    ensures forall r :: r in groups ==> r in m && r in m' && m[r] == m'[r]
  {
    SameOrder(groups, order, order');
    hide Before;
    forall i: nat | i < |loads|
      ensures loads[i] == loads'[i]
    {
      SameLoads(groups, order, loads, m, loads', m', i);
    }
    forall r | r in groups
      ensures r in m && r in m' && m[r] == m'[r]
    {
      var i :| 0 <= i < |order| && order[i] == r;
      SameLoads(groups, order, loads, m, loads', m', i + 1);
    }
  }

  lemma {:induction false} SameLoads(groups: map<nat, seq<nat>>, order: seq<nat>, loads: seq<seq<nat>>,
      m: map<nat, nat>, loads': seq<seq<nat>>, m': map<nat, nat>, i: nat)
    requires Placement(groups, order, loads, m) && Placement(groups, order, loads', m') && i <= |order|
    requires |loads[0]| == |loads'[0]|
    ensures loads[i] == loads'[i]
    ensures i > 0 ==> order[i - 1] in m && order[i - 1] in m' && m[order[i - 1]] == m'[order[i - 1]]
  {
    hide Before;
    if i > 0 {
      SameLoads(groups, order, loads, m, loads', m', i - 1);
      assert PlacedAt(groups, order, loads, m, i - 1) && PlacedAt(groups, order, loads', m', i - 1);
    }
  }

  /** Places group after group, larger ones first, each on the least loaded shard. */
  method Place(groups: map<nat, seq<nat>>, shards: nat, balanceWeight: real, ghost parent: map<nat, nat>)
    returns (m: map<nat, nat>, load: seq<nat>, ghost order: seq<nat>, ghost loads: seq<seq<nat>>)
    requires shards > 0 && balanceWeight > 0.0 && Listed(parent, groups)
    ensures |load| == shards && Placed(parent, groups.Keys, m, load) && Even(groups, load)
    ensures Placement(groups, order, loads, m) && loads[|order|] == load && forall r :: r in order <==> r in groups
  {
    m, load := map[], seq(shards, s => 0);
    order, loads := [], [load];
    var rest := groups.Keys;
    ghost var done: set<nat> := {};
    LineStart(groups, load);
    hide *;
    IsListed(parent, groups);
    StartPlaced(parent, groups, load);
    while rest != {}
      invariant |load| == shards && Line(groups, done, rest, order) && Placed(parent, done, m, load)
      invariant Even(groups, load) && History(groups, order, loads, m, load)
    {
      LineHas(groups, done, rest, order);
      var root := FirstRoot(groups, rest);
      ghost var m0, load0 := m, load;
      m, load := PlaceGroup(groups, root, balanceWeight, m, load, parent, done);
      LineNext(groups, done, rest, order, root);
      HistoryNext(groups, order, loads, m0, m, root, load0, load);
      order, loads := order + [root], loads + [load];
      rest, done := rest - {root}, done + {root};
    }
    LineEnd(groups, done, order, loads, m, load);
  }

  /** Between two placements: what is placed, what is left, and that the rest comes later. */
  ghost predicate Line(groups: map<nat, seq<nat>>, done: set<nat>, rest: set<nat>, order: seq<nat>) {
    && Split(groups, done, rest) && (forall r :: r in order <==> r in done)
    && forall i, r :: 0 <= i < |order| && r in rest ==> Before(groups, order[i], r)
  }

  ghost predicate History(groups: map<nat, seq<nat>>, order: seq<nat>, loads: seq<seq<nat>>, m: map<nat, nat>,
      load: seq<nat>) {
    Placement(groups, order, loads, m) && loads[|order|] == load
  }

  lemma LineStart(groups: map<nat, seq<nat>>, load: seq<nat>)
    requires forall s :: 0 <= s < |load| ==> load[s] == 0
    ensures Line(groups, {}, groups.Keys, []) && History(groups, [], [load], map[], load)
  {
  }

  lemma LineHas(groups: map<nat, seq<nat>>, done: set<nat>, rest: set<nat>, order: seq<nat>)
    requires Line(groups, done, rest, order)
    ensures (forall r :: r in rest ==> r in groups && r !in done)
    ensures forall i, r :: 0 <= i < |order| && r in rest ==> Before(groups, order[i], r)
  {
  }

  lemma LineNext(groups: map<nat, seq<nat>>, done: set<nat>, rest: set<nat>, order: seq<nat>, root: nat)
    requires Line(groups, done, rest, order) && root in rest && (forall r :: r in rest ==> r in groups)
    requires forall r :: r in rest ==> Ahead(groups, root, r)
    ensures Line(groups, done + {root}, rest - {root}, order + [root])
  {
    hide Ahead;
  }

  lemma HistoryNext(groups: map<nat, seq<nat>>, order: seq<nat>, loads: seq<seq<nat>>, m0: map<nat, nat>,
      m: map<nat, nat>, root: nat, load0: seq<nat>, load: seq<nat>)
    requires History(groups, order, loads, m0, load0) && root in groups && root in m
    requires (forall k :: k in m0 ==> k in m && m[k] == m0[k])
    requires Lightest(load0, m[root]) && load == load0[m[root] := load0[m[root]] + |groups[root]|]
    requires forall i :: 0 <= i < |order| ==> Before(groups, order[i], root)
    ensures History(groups, order + [root], loads + [load], m, load)
  {
    PlacementNext(groups, order, loads, m0, m, root, load);
  }

  lemma LineEnd(groups: map<nat, seq<nat>>, done: set<nat>, order: seq<nat>, loads: seq<seq<nat>>, m: map<nat, nat>,
      load: seq<nat>)
    requires Line(groups, done, {}, order) && History(groups, order, loads, m, load)
    ensures done == groups.Keys && |loads| == |order| + 1 && Placement(groups, order, loads, m)
    ensures loads[|order|] == load && forall r :: r in order <==> r in groups
  {
  }

  lemma PlacementNext(groups: map<nat, seq<nat>>, order: seq<nat>, loads: seq<seq<nat>>, m0: map<nat, nat>,
      m: map<nat, nat>, root: nat, load: seq<nat>)
    requires Placement(groups, order, loads, m0) && root in groups && root in m
    requires (forall k :: k in m0 ==> k in m && m[k] == m0[k])
    requires Lightest(loads[|order|], m[root])
    requires load == loads[|order|][m[root] := loads[|order|][m[root]] + |groups[root]|]
    requires forall i :: 0 <= i < |order| ==> Before(groups, order[i], root)
    ensures Placement(groups, order + [root], loads + [load], m)
  {
    hide Lightest; hide Before;
    var order', loads' := order + [root], loads + [load];
    forall i | 0 <= i < |order'|
      ensures PlacedAt(groups, order', loads', m, i)
    {
      assert i < |order| ==> PlacedAt(groups, order, loads, m0, i);
    }
  }

  ghost predicate Split(groups: map<nat, seq<nat>>, done: set<nat>, rest: set<nat>) {
    forall r: nat :: (r in groups <==> r in done || r in rest) && !(r in done && r in rest)
  }

  method PlaceGroup(groups: map<nat, seq<nat>>, root: nat, balanceWeight: real, m0: map<nat, nat>, load0: seq<nat>,
      ghost parent: map<nat, nat>, ghost done: set<nat>)
    returns (m: map<nat, nat>, load: seq<nat>)
    requires Listed(parent, groups) && root in groups && root !in done && |load0| > 0 && balanceWeight > 0.0
    requires Placed(parent, done, m0, load0) && Even(groups, load0)
    ensures |load| == |load0| && Placed(parent, done + {root}, m, load) && Even(groups, load)
    ensures root in m && (forall k :: k in m0 ==> k in m && m[k] == m0[k])
    ensures Lightest(load0, m[root]) && load == load0[m[root] := load0[m[root]] + |groups[root]|]
  {
    hide *;
    var best := LeastLoaded(load0, balanceWeight);
    PlaceOne(parent, groups, done, m0, load0, root, best);
    StillEven(groups, load0, root, best);
    NewGroup(parent, groups, done, m0, load0, root);
    m := AssignAll(m0, groups[root], best);
    load := load0[best := load0[best] + |groups[root]|];
    IsLightest(load0, best);
  }

  lemma IsLightest(load: seq<nat>, best: nat)
    requires best < |load|
    requires forall s :: 0 <= s < |load| ==> load[best] <= load[s] && (load[s] == load[best] ==> best <= s)
    ensures Lightest(load, best)
  {
  }

  /** The keys of an unplaced group are new, and the root is one of them. */
  lemma NewGroup(parent: map<nat, nat>, groups: map<nat, seq<nat>>, done: set<nat>, m: map<nat, nat>, load: seq<nat>,
      root: nat)
    requires Listed(parent, groups) && root in groups && root !in done && Placed(parent, done, m, load)
    ensures root in groups[root] && forall k :: k in m ==> k !in groups[root]
  {
    hide Linked; hide Root; hide Listed; hide Ascending; hide Whole; hide Loads;
    RootFirst(parent, groups, root);
    GroupMembers(parent, groups, root);
    forall k | k in m
      ensures k !in groups[root]
    {
      assert Root(parent, k) in done;
    }
  }

  lemma IsListed(parent: map<nat, nat>, groups: map<nat, seq<nat>>)
    requires Listed(parent, groups)
    ensures Linked(parent)
  {
  }

  lemma StartPlaced(parent: map<nat, nat>, groups: map<nat, seq<nat>>, load: seq<nat>)
    requires Linked(parent) && forall s :: 0 <= s < |load| ==> load[s] == 0
    ensures Placed(parent, {}, map[], load) && Even(groups, load)
  {
    hide Linked; hide Root;
    forall s | 0 <= s < |load|
      ensures OnShard(map[], s) == {}
    {
    }
  }

  lemma StillEven(groups: map<nat, seq<nat>>, load: seq<nat>, r: nat, best: nat)
    requires Even(groups, load) && r in groups && best < |load| && forall s :: 0 <= s < |load| ==> load[best] <= load[s]
    ensures Even(groups, load[best := load[best] + |groups[r]|])
  {
    var load' := load[best := load[best] + |groups[r]|];
    forall s, t | 0 <= s < |load| && 0 <= t < |load| && load'[s] > load'[t]
      ensures exists q :: q in groups && load'[s] - load'[t] <= |groups[q]|
    {
      if s == best {
        assert load'[s] - load'[t] <= |groups[r]|;
      } else {
        var q :| q in groups && load[s] - load[t] <= |groups[q]|;
      }
    }
  }

  // ---- The whole routing ----

  ghost predicate Uses(batch: seq<seq<nat>>, n: nat, k: nat) {
    n <= |batch| && exists i :: 0 <= i < n && k in batch[i]
  }

  /** Counts over the first `n` transactions: which keys occur, and how often two together. */
  ghost predicate Tallied(batch: seq<seq<nat>>, n: nat, keys: seq<nat>, w: Weights) {
    && n <= |batch| && (forall k: nat :: k in keys <==> k != 0 && Uses(batch, n, k))
    && forall x: nat, y: nat :: At(w, x, y) == if 0 < x < y then Together(batch, x, y, n) else 0
  }

  method Tally(batch: seq<seq<nat>>) returns (keys: seq<nat>, w: Weights)
    ensures Tallied(batch, |batch|, keys, w)
  {
    keys, w := [], map[];
    assert Tallied(batch, 0, keys, w);
    hide Ascending; hide Tallied;
    for n := 0 to |batch|
      invariant Tallied(batch, n, keys, w)
    {
      var ks := Unique(batch[n]);
      ghost var before := w;
      w := CountPairs(w, ks);
      TallyOne(batch, n, keys, before, w, ks);
      keys := keys + ks;
    }
  }

  lemma TallyOne(batch: seq<seq<nat>>, n: nat, keys: seq<nat>, w: Weights, w': Weights, ks: seq<nat>)
    requires Tallied(batch, n, keys, w) && n < |batch| && forall k: nat :: k in ks <==> k != 0 && k in batch[n]
    requires forall x: nat, y: nat :: At(w', x, y) == At(w, x, y) + if x < y && x in ks && y in ks then 1 else 0
    ensures Tallied(batch, n + 1, keys + ks, w')
  {
    forall k: nat
      ensures Uses(batch, n + 1, k) <==> Uses(batch, n, k) || k in batch[n]
    {
    }
  }

  lemma CappedMore(parent: map<nat, nat>, a: nat, b: nat)
    requires Capped(parent, a) && a <= b
    ensures Capped(parent, b)
  {
    hide Linked; hide Root; hide Group;
  }

  /** What the grouping achieves: every used key is in a group, no group exceeds the limit,
      keys used together often enough are together or their groups are too large for that,
      groups hold together by such pairs only, and they arise by joining the heaviest first. */
  ghost predicate Grouping(batch: seq<seq<nat>>, minWeight: nat, maxGroupSize: nat, groups: map<nat, seq<nat>>,
      parent: map<nat, nat>, pairs: seq<(nat, nat)>) {
    && Listed(parent, groups) && Capped(parent, maxGroupSize)
      && (forall k: nat :: k in parent <==> k != 0 && Uses(batch, |batch|, k))
    && (forall x: nat, y: nat ::
      0 < x < y && Together(batch, x, y, |batch|) >= minWeight ==> Settled(parent, maxGroupSize, x, y))
    && (forall x, y ::
      x in parent && y in parent && Root(parent, x) == Root(parent, y) ==> Bound(batch, minWeight, x, y))
    && Heaviest(batch, minWeight, pairs) && Grouped(pairs, parent, maxGroupSize)
  }

  /** The grouping half: keys used together often enough are joined, unless their groups are
      too large for that. */
  method GroupKeys(batch: seq<seq<nat>>, minWeight: nat, maxGroupSize: nat)
    returns (groups: map<nat, seq<nat>>, ghost parent: map<nat, nat>, ghost pairs: seq<(nat, nat)>)
    requires minWeight > 0 && maxGroupSize > 0
    ensures Grouping(batch, minWeight, maxGroupSize, groups, parent, pairs)
  {
    hide *;
    var all, w := Tally(batch);
    var keys := Unique(all);
    KeysUsed(batch, all, keys, w);
    var heavy := HeavyPairs(w, minWeight);
    pairs := heavy;
    HeaviestFirst(batch, all, w, minWeight, pairs);
    var forest := new Forest(keys);
    ghost var start := forest.parent;
    CappedMore(start, 1, maxGroupSize);
    IsLinked(start, forest.size);
    TiedStart(start, pairs);
    PairsKnown(batch, all, w, minWeight, pairs, start);
    forest.Merge(heavy, maxGroupSize);
    ghost var merged := forest.parent;
    MergedKeys(start, merged, pairs, maxGroupSize);
    groups := forest.Collect(keys);
    parent := forest.parent;
    SameKeys(merged, parent);
    GroupingDone(batch, all, w, minWeight, pairs, start, merged, parent, maxGroupSize, groups);
  }

  lemma MergedKeys(start: map<nat, nat>, merged: map<nat, nat>, pairs: seq<(nat, nat)>, maxGroupSize: nat)
    requires Merged(start, merged, pairs, |pairs|, maxGroupSize)
    ensures merged.Keys == start.Keys
  {
  }

  lemma GroupingDone(batch: seq<seq<nat>>, all: seq<nat>, w: Weights, minWeight: nat, pairs: seq<(nat, nat)>,
      start: map<nat, nat>, merged: map<nat, nat>, parent: map<nat, nat>, maxGroupSize: nat,
      groups: map<nat, seq<nat>>)
    requires Tallied(batch, |batch|, all, w) && minWeight > 0
    requires (forall p :: p in pairs <==> p in w && w[p] >= minWeight) && Heaviest(batch, minWeight, pairs)
    requires (forall k :: k in start ==> start[k] == k)
    requires (forall k: nat :: k in start <==> k != 0 && Uses(batch, |batch|, k))
    requires Merged(start, merged, pairs, |pairs|, maxGroupSize) && Capped(merged, maxGroupSize)
    requires SameRoots(merged, parent) && merged.Keys == parent.Keys && Listed(parent, groups)
    ensures Grouping(batch, minWeight, maxGroupSize, groups, parent, pairs)
  {
    hide Tied; hide Settled; hide Coarser; hide Built; hide Tallied; hide Capped; hide SameRoots; hide Linked;
    hide Bound; hide Grouped; hide Together; hide Heaviest; hide Listed; hide Uses;
    IsListed(parent, groups);
    Compressed(merged, parent, maxGroupSize);
    TiedSame(merged, parent, pairs, |pairs|);
    GroupedBy(pairs, start, merged, parent, maxGroupSize);
    AllBound(batch, all, w, minWeight, pairs, parent);
    AllSettled(batch, all, w, minWeight, pairs, merged, parent, maxGroupSize);
    assert forall k: nat :: k in parent <==> k in start;
  }

  /** `CoAccessRouting.BuildRouting`: groups keys that are used together and spreads the groups
      evenly. */
  method BuildRouting(batch: seq<seq<nat>>, shards: nat, minWeight: nat, maxGroupSize: nat, balanceWeight: real)
    returns (m: map<nat, nat>, load: seq<nat>, groups: map<nat, seq<nat>>, ghost parent: map<nat, nat>,
      ghost pairs: seq<(nat, nat)>, ghost order: seq<nat>, ghost loads: seq<seq<nat>>)
    requires shards > 0 && minWeight > 0 && maxGroupSize > 0 && balanceWeight > 0.0
    ensures Grouping(batch, minWeight, maxGroupSize, groups, parent, pairs)
    ensures |load| == shards && Placed(parent, groups.Keys, m, load) && Even(groups, load)
    ensures Placement(groups, order, loads, m) && loads[|order|] == load && forall r :: r in order <==> r in groups
  {
    groups, parent, pairs := GroupKeys(batch, minWeight, maxGroupSize);
    hide *;
    GroupingLists(batch, minWeight, maxGroupSize, groups, parent, pairs);
    m, load, order, loads := Place(groups, shards, balanceWeight, parent);
  }

  lemma GroupingLists(batch: seq<seq<nat>>, minWeight: nat, maxGroupSize: nat, groups: map<nat, seq<nat>>,
      parent: map<nat, nat>, pairs: seq<(nat, nat)>)
    requires Grouping(batch, minWeight, maxGroupSize, groups, parent, pairs)
    ensures Listed(parent, groups)
  {
  }

  /** All pairs of keys used together often enough, those used more often first. */
  ghost predicate Heaviest(batch: seq<seq<nat>>, minWeight: nat, pairs: seq<(nat, nat)>) {
    && (forall x: nat, y: nat :: (x, y) in pairs <==> 0 < x < y && Together(batch, x, y, |batch|) >= minWeight)
    && (forall i, j :: 0 <= i < j < |pairs| ==> NotLighter(batch, pairs[i], pairs[j]))
  }

  ghost predicate NotLighter(batch: seq<seq<nat>>, p: (nat, nat), q: (nat, nat)) {
    var a, b := Together(batch, p.0, p.1, |batch|), Together(batch, q.0, q.1, |batch|);
    a > b || (a == b && (p.0 < q.0 || (p.0 == q.0 && p.1 <= q.1)))
  }

  /** The groups come from single keys by joining the pairs in this order. */
  ghost predicate Grouped(pairs: seq<(nat, nat)>, parent: map<nat, nat>, maxGroupSize: nat) {
    exists start, merged :: Built(start, merged, pairs, |pairs|, maxGroupSize) && SameRoots(merged, parent)
      && Single(start)
  }

  ghost predicate Single(start: map<nat, nat>) {
    forall k :: k in start ==> start[k] == k
  }

  lemma GroupedBy(pairs: seq<(nat, nat)>, start: map<nat, nat>, merged: map<nat, nat>, parent: map<nat, nat>,
      maxGroupSize: nat)
    requires (forall k :: k in start ==> start[k] == k) && Built(start, merged, pairs, |pairs|, maxGroupSize)
    requires SameRoots(merged, parent)
    ensures Grouped(pairs, parent, maxGroupSize)
  {
    hide Built; hide SameRoots;
    assert Single(start);
  }

  lemma HeaviestFirst(batch: seq<seq<nat>>, all: seq<nat>, w: Weights, minWeight: nat, pairs: seq<(nat, nat)>)
    requires Tallied(batch, |batch|, all, w) && minWeight > 0
    requires (forall p :: p in pairs <==> p in w && w[p] >= minWeight)
    requires forall i, j :: 0 <= i < j < |pairs| ==> Sooner(w, pairs[i], pairs[j])
    ensures Heaviest(batch, minWeight, pairs)
  {
    hide Uses; hide Together;
    forall x: nat, y: nat
      ensures (x, y) in pairs <==> 0 < x < y && Together(batch, x, y, |batch|) >= minWeight
    {
      assert At(w, x, y) == if 0 < x < y then Together(batch, x, y, |batch|) else 0;
    }
    forall i, j | 0 <= i < j < |pairs|
      ensures NotLighter(batch, pairs[i], pairs[j])
    {
      assert pairs[i] in pairs && pairs[j] in pairs && Sooner(w, pairs[i], pairs[j]);
      PairWeight(batch, all, w, minWeight, pairs[i]);
      PairWeight(batch, all, w, minWeight, pairs[j]);
    }
  }

  lemma PairWeight(batch: seq<seq<nat>>, all: seq<nat>, w: Weights, minWeight: nat, p: (nat, nat))
    requires Tallied(batch, |batch|, all, w) && minWeight > 0 && p in w && w[p] >= minWeight
    ensures At(w, p.0, p.1) == Together(batch, p.0, p.1, |batch|)
  {
    hide Uses; hide Together;
    assert p == (p.0, p.1);
    assert At(w, p.0, p.1) == if 0 < p.0 < p.1 then Together(batch, p.0, p.1, |batch|) else 0;
  }

  /** Used together often enough. */
  ghost predicate Often(batch: seq<seq<nat>>, minWeight: nat, x: nat, y: nat) {
    Together(batch, x, y, |batch|) >= minWeight || Together(batch, y, x, |batch|) >= minWeight
  }

  /** A chain of keys, each used together with the next one often enough. */
  ghost predicate Bound(batch: seq<seq<nat>>, minWeight: nat, x: nat, y: nat) {
    exists c: seq<nat> :: OftenAll(batch, minWeight, c) && c[0] == x && c[|c| - 1] == y
  }

  ghost predicate OftenAll(batch: seq<seq<nat>>, minWeight: nat, c: seq<nat>) {
    c != [] && forall i :: 0 <= i < |c| - 1 ==> Often(batch, minWeight, c[i], c[i + 1])
  }

  lemma AllBound(batch: seq<seq<nat>>, all: seq<nat>, w: Weights, minWeight: nat, pairs: seq<(nat, nat)>,
      parent: map<nat, nat>)
    requires Tallied(batch, |batch|, all, w) && minWeight > 0
    requires (forall p :: p in pairs <==> p in w && w[p] >= minWeight) && Tied(parent, pairs, |pairs|)
    ensures Linked(parent)
    ensures forall x, y ::
      x in parent && y in parent && Root(parent, x) == Root(parent, y) ==> Bound(batch, minWeight, x, y)
  {
    hide Uses; hide Together; hide Linked; hide Root;
    forall x, y | x in parent && y in parent && Root(parent, x) == Root(parent, y)
      ensures Bound(batch, minWeight, x, y)
    {
      var c :| Chain(pairs, |pairs|, c) && c[0] == x && c[|c| - 1] == y;
      forall i | 0 <= i < |c| - 1
        ensures Often(batch, minWeight, c[i], c[i + 1])
      {
        PairOften(batch, all, w, minWeight, pairs, c[i], c[i + 1]);
      }
      assert OftenAll(batch, minWeight, c);
    }
  }

  lemma PairOften(batch: seq<seq<nat>>, all: seq<nat>, w: Weights, minWeight: nat, pairs: seq<(nat, nat)>, x: nat,
      y: nat)
    requires Tallied(batch, |batch|, all, w) && minWeight > 0
    requires (forall p :: p in pairs <==> p in w && w[p] >= minWeight) && Pair(pairs, |pairs|, x, y)
    ensures Often(batch, minWeight, x, y)
  {
    hide Uses; hide Together;
    var i :| 0 <= i < |pairs| && (pairs[i] == (x, y) || pairs[i] == (y, x));
    assert pairs[i] in pairs;
    assert At(w, pairs[i].0, pairs[i].1) >= minWeight;
  }

  lemma KeysUsed(batch: seq<seq<nat>>, all: seq<nat>, keys: seq<nat>, w: Weights)
    requires Tallied(batch, |batch|, all, w) && forall k: nat :: k in keys <==> k != 0 && k in all
    ensures forall k: nat :: k in keys <==> k != 0 && Uses(batch, |batch|, k)
  {
  }

  lemma {:induction false} BothUsed(batch: seq<seq<nat>>, x: nat, y: nat, n: nat)
    requires n <= |batch| && Together(batch, x, y, n) > 0
    ensures Uses(batch, n, x) && Uses(batch, n, y)
  {
    if x in batch[n - 1] && y in batch[n - 1] {
    } else {
      BothUsed(batch, x, y, n - 1);
    }
  }

  lemma PairsKnown(batch: seq<seq<nat>>, all: seq<nat>, w: Weights, minWeight: nat, pairs: seq<(nat, nat)>,
      parent: map<nat, nat>)
    requires Tallied(batch, |batch|, all, w) && minWeight > 0 && forall p :: p in pairs <==> p in w && w[p] >= minWeight
    requires forall k: nat :: k in parent <==> k != 0 && Uses(batch, |batch|, k)
    ensures forall i :: 0 <= i < |pairs| ==> pairs[i].0 in parent && pairs[i].1 in parent
  {
    hide Uses; hide Together;
    forall i | 0 <= i < |pairs|
      ensures pairs[i].0 in parent && pairs[i].1 in parent
    {
      assert pairs[i] in pairs;
      var x, y := pairs[i].0, pairs[i].1;
      assert pairs[i] == (x, y) && At(w, x, y) >= minWeight;
      BothUsed(batch, x, y, |batch|);
    }
  }

  lemma Compressed(p: map<nat, nat>, p': map<nat, nat>, maxGroupSize: nat)
    requires SameRoots(p, p') && Capped(p, maxGroupSize)
    ensures Capped(p', maxGroupSize) && Coarser(p, p')
  {
    hide Linked; hide Root;
    forall r
      ensures Group(p', r) == Group(p, r)
    {
    }
    forall r | r in p' && p'[r] == r
      ensures |Group(p', r)| <= maxGroupSize
    {
      RootIsRoot(p', r);
      assert Root(p, r) == r;
    }
  }

  lemma AllSettled(batch: seq<seq<nat>>, all: seq<nat>, w: Weights, minWeight: nat, pairs: seq<(nat, nat)>,
      merged: map<nat, nat>, parent: map<nat, nat>, maxGroupSize: nat)
    requires Tallied(batch, |batch|, all, w) && minWeight > 0 && forall p :: p in pairs <==> p in w && w[p] >= minWeight
    requires Coarser(merged, parent)
    requires forall i :: 0 <= i < |pairs| ==> Settled(merged, maxGroupSize, pairs[i].0, pairs[i].1)
    ensures forall x: nat, y: nat ::
      0 < x < y && Together(batch, x, y, |batch|) >= minWeight ==> Settled(parent, maxGroupSize, x, y)
  {
    hide Uses; hide Together; hide Coarser; hide Settled;
    forall x: nat, y: nat | 0 < x < y && Together(batch, x, y, |batch|) >= minWeight
      ensures Settled(parent, maxGroupSize, x, y)
    {
      assert At(w, x, y) >= minWeight;
      assert (x, y) in pairs;
      var i :| 0 <= i < |pairs| && pairs[i] == (x, y);
      SettledStays(merged, parent, maxGroupSize, x, y);
    }
  }

  // ---- Names of pairs ----

  const NUL: char := '\0'

  function Pack(a: string, b: string): string {
    a + [NUL] + b
  }

  /** `splitPair`: cuts at the first separator. */
  method SplitPair(value: string) returns (a: string, b: string)
    ensures NUL in value ==> value == Pack(a, b) && NUL !in a
    ensures NUL !in value ==> a == "" && b == ""
  {
    for i := 0 to |value|
      invariant NUL !in value[..i]
    {
      if value[i] == NUL {
        return value[..i], value[i + 1..];
      }
    }
    assert value[..|value|] == value;
    a, b := "", "";
  }

  /** Cutting a packed pair gives it back exactly if the first name has no separator. */
  lemma UnpackIff(a: string, b: string, c: string, d: string)
    requires Pack(a, b) == Pack(c, d) && NUL !in c
    ensures (a, b) == (c, d) <==> NUL !in a
  {
    var packed := Pack(a, b);
    if NUL !in a {
      assert packed[|a|] == NUL && packed[|c|] == NUL;
      assert a == packed[..|a|] && c == packed[..|c|];
      assert b == packed[|a| + 1..] && d == packed[|c| + 1..];
    }
  }
}
