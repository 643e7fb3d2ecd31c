/** ACG from access lists to execution: live transactions of one sequence number form a wave, the
    waves run in the order of their numbers, and this is serial replay of the plan's order under
    conditions that access lists decide. */
module AcgWaves {

  import opened Basics
  import opened Transactions
  import Digraphs
  import S = NezhaSort
  import O = NezhaOrder
  import N = NezhaPlan
  import Numbers = NezhaNumbers
  import Safety = NezhaSafety
  import Unique = NezhaUnique
  import Colouring = BsxColouring
  import W = BsxWaves

  function AccessesOf(block: seq<Tx>): (r: seq<N.Declared>)
    ensures |r| == |block|
    ensures forall i :: 0 <= i < |r| ==> r[i] == N.Declared(DeclaredReads(block[i]), DeclaredWrites(block[i]))
  {
    seq(|block|, i requires 0 <= i < |block| => N.Declared(DeclaredReads(block[i]), DeclaredWrites(block[i])))
  }

  /** Positions in the block. */
  datatype AcgPlan = AcgPlan(waves: seq<seq<nat>>, aborted: seq<nat>)

  ghost predicate Rising(list: seq<nat>) {
    forall p, r :: 0 <= p < r < |list| ==> list[p] < list[r]
  }

  // ---- Groups of one number ----

  /** All live transactions of one number, in block order. */
  ghost predicate Group(level: seq<int>, aborted: seq<bool>, wave: seq<nat>, number: int) {
    && Rising(wave) && wave != []
    && forall t: nat :: t in wave <==> t < |level| && S.Live(aborted, t) && level[t] == number
  }

  /** One group per number in use, by increasing number. */
  ghost predicate Grouped(level: seq<int>, aborted: seq<bool>, waves: seq<seq<nat>>, numbers: seq<int>) {
    && |waves| == |numbers| && S.Ascending(numbers)
    && (forall c :: 0 <= c < |waves| ==> Group(level, aborted, waves[c], numbers[c]))
    && forall t: nat :: t < |level| && S.Live(aborted, t) ==> level[t] in numbers
  }

  ghost predicate Collected(level: seq<int>, aborted: seq<bool>, groups: map<int, seq<nat>>, n: nat) {
    && n <= |level| == |aborted|
    && (forall v :: v in groups ==> GroupBelow(level, aborted, groups[v], v, n))
    && forall t: nat :: t < n && S.Live(aborted, t) ==> level[t] in groups
  }

  ghost predicate GroupBelow(level: seq<int>, aborted: seq<bool>, list: seq<nat>, number: int, n: nat) {
    && Rising(list) && list != []
    && forall t: nat :: t in list <==> t < n && t < |level| && S.Live(aborted, t) && level[t] == number
  }

  lemma CollectSkip(level: seq<int>, aborted: seq<bool>, groups: map<int, seq<nat>>, n: nat)
    requires Collected(level, aborted, groups, n) && n < |level| && aborted[n]
    ensures Collected(level, aborted, groups, n + 1)
  {
    hide GroupBelow;
    forall v | v in groups
      ensures GroupBelow(level, aborted, groups[v], v, n + 1)
    {
      GroupNext(level, aborted, groups[v], v, n);
    }
  }

  lemma CollectOne(level: seq<int>, aborted: seq<bool>, groups: map<int, seq<nat>>, n: nat)
    requires Collected(level, aborted, groups, n) && n < |level| && !aborted[n]
    ensures Collected(level, aborted, groups[level[n] := S.ListAt(groups, level[n]) + [n]], n + 1)
  {
    hide GroupBelow;
    var more := groups[level[n] := S.ListAt(groups, level[n]) + [n]];
    forall v | v in more
      ensures GroupBelow(level, aborted, more[v], v, n + 1)
    {
      if v in groups {
        GroupNext(level, aborted, groups[v], v, n);
      } else {
        NewGroup(level, aborted, n);
      }
    }
  }

  lemma GroupNext(level: seq<int>, aborted: seq<bool>, list: seq<nat>, v: int, n: nat)
    requires n < |level| == |aborted| && GroupBelow(level, aborted, list, v, n)
    ensures aborted[n] || level[n] != v ==> GroupBelow(level, aborted, list, v, n + 1)
    ensures !aborted[n] && level[n] == v ==> GroupBelow(level, aborted, list + [n], v, n + 1)
  {
    forall p | 0 <= p < |list|
      ensures list[p] < n
    {
      assert list[p] in list;
    }
  }

  lemma NewGroup(level: seq<int>, aborted: seq<bool>, n: nat)
    requires n < |level| == |aborted| && !aborted[n]
    requires forall t: nat :: t < n && S.Live(aborted, t) ==> level[t] != level[n]
    ensures [] + [n] == [n] && GroupBelow(level, aborted, [n], level[n], n + 1)
  {
  }

  /** The end of `buildACGPlan`: groups by number, in the order of the numbers. */
  method GroupWaves(level: seq<int>, aborted: seq<bool>) returns (waves: seq<seq<nat>>, numbers: seq<int>)
    requires |level| == |aborted|
    ensures Grouped(level, aborted, waves, numbers)
  {
    var groups: map<int, seq<nat>> := map[];
    for i := 0 to |level|
      invariant Collected(level, aborted, groups, i)
    {
      hide Collected;
      if aborted[i] {
        CollectSkip(level, aborted, groups, i);
      } else {
        CollectOne(level, aborted, groups, i);
        groups := groups[level[i] := S.ListAt(groups, level[i]) + [i]];
      }
    }
    numbers := S.SortedKeys(groups.Keys);
    waves := [];
    hide GroupBelow;
    for c := 0 to |numbers|
      invariant |waves| == c
      invariant forall d :: 0 <= d < c ==> Group(level, aborted, waves[d], numbers[d])
    {
      assert numbers[c] in numbers;
      WholeGroup(level, aborted, groups[numbers[c]], numbers[c]);
      waves := waves + [groups[numbers[c]]];
    }
    AllCollected(level, aborted, groups, numbers);
  }

  lemma WholeGroup(level: seq<int>, aborted: seq<bool>, list: seq<nat>, v: int)
    requires GroupBelow(level, aborted, list, v, |level|)
    ensures Group(level, aborted, list, v)
  {
  }

  lemma AllCollected(level: seq<int>, aborted: seq<bool>, groups: map<int, seq<nat>>, numbers: seq<int>)
    requires Collected(level, aborted, groups, |level|) && forall v :: v in numbers <==> v in groups
    ensures forall t: nat :: t < |level| && S.Live(aborted, t) ==> level[t] in numbers
  {
    forall t: nat | t < |level| && S.Live(aborted, t)
      ensures level[t] in numbers
    {
      var v := level[t];
      assert v in groups;
    }
  }

  // ---- The numbers of transactions ----

  /** The number of each transaction is read off its first node; one without accesses has the
      initial number. */
  method ReadNumbers(sorter: S.Sorter) returns (numbers: seq<int>)
    requires sorter.Valid()
    requires forall t: nat :: t < |sorter.own| && sorter.own[t] == [] ==> sorter.level[t] == S.INITIAL
    requires forall t: nat :: t < |sorter.own| && S.Live(sorter.aborted, t) ==> sorter.level[t] > 0
    ensures |numbers| == |sorter.level|
    ensures forall t: nat :: t < |numbers| && S.Live(sorter.aborted, t) ==> numbers[t] == sorter.level[t]
  {
    numbers := [];
    for t := 0 to |sorter.own|
      invariant |numbers| == t
      invariant forall u: nat :: u < t && S.Live(sorter.aborted, u) ==> numbers[u] == sorter.level[u]
    {
      assert S.Lists(sorter.nodes, sorter.own[t], t);
      var number := if sorter.own[t] == [] then S.INITIAL else sorter.sequence[sorter.own[t][0]];
      numbers := numbers + [if number == 0 then S.INITIAL else number];
    }
  }

  method ListAborted(flags: seq<bool>) returns (aborted: seq<nat>)
    ensures Rising(aborted) && forall t: nat :: t in aborted <==> t < |flags| && flags[t]
  {
    aborted := [];
    for t := 0 to |flags|
      invariant Rising(aborted) && forall u: nat :: u in aborted <==> u < t && flags[u]
      invariant forall p :: 0 <= p < |aborted| ==> aborted[p] < t
    {
      if flags[t] {
        aborted := aborted + [t];
      }
    }
  }

  // ---- The plan ----

  ghost predicate Planned(block: seq<Tx>, sort: set<Key> -> seq<Key>, x: N.Numbering, plan: AcgPlan) {
    && N.Numbers(AccessesOf(block), sort, x) && x.trace != []
    && (exists numbers :: Grouped(N.Final(x).level, N.Final(x).aborted, plan.waves, numbers))
    && Rising(plan.aborted)
    && forall t: nat :: t in plan.aborted <==> t < |block| && !S.Live(N.Final(x).aborted, t)
  }

  /** `buildACGPlan`. */
  method BuildPlan(block: seq<Tx>, sort: set<Key> -> seq<Key>) returns (r: Option<AcgPlan>, ghost x: N.Numbering)
    requires Listing(sort) && |N.Used(AccessesOf(block), |block|)| < O.MAX_INT
    ensures r.Some? <==> Colouring.UsableIds(block)
    ensures r.Some? ==> Planned(block, sort, x, r.value)
  {
    x := N.Numbering([], [], [], [], [], []);
    var ok := Colouring.CheckIds(block);
    if !ok {
      return None, x;
    }
    hide *;
    var sorter, queues, adj, order;
    sorter, queues, adj, order, x := N.BuildNumbers(AccessesOf(block), sort);
    Safety.Ends(AccessesOf(block), sort, x);
    ReadyToRead(AccessesOf(block), sort, x, sorter);
    var numbers := ReadNumbers(sorter);
    var waves, used := GroupWaves(numbers, sorter.aborted);
    var aborted := ListAborted(sorter.aborted);
    SameGroups(numbers, sorter.level, sorter.aborted, waves, used);
    r := Some(AcgPlan(waves, aborted));
    ThePlan(block, sort, x, r.value, used);
  }

  lemma SameGroups(numbers: seq<int>, level: seq<int>, aborted: seq<bool>, waves: seq<seq<nat>>, used: seq<int>)
    requires Grouped(numbers, aborted, waves, used) && |numbers| == |level|
    requires forall t: nat :: t < |numbers| && S.Live(aborted, t) ==> numbers[t] == level[t]
    ensures Grouped(level, aborted, waves, used)
  {
    hide S.Live; hide S.Ascending; hide Rising;
  }

  lemma ThePlan(block: seq<Tx>, sort: set<Key> -> seq<Key>, x: N.Numbering, plan: AcgPlan, used: seq<int>)
    requires N.Numbers(AccessesOf(block), sort, x) && x.trace != [] && Rising(plan.aborted)
    requires Grouped(N.Final(x).level, N.Final(x).aborted, plan.waves, used)
    requires |N.Final(x).aborted| == |block|
    requires forall t: nat :: t in plan.aborted <==> t < |N.Final(x).aborted| && N.Final(x).aborted[t]
    ensures Planned(block, sort, x, plan)
  {
    hide N.Numbers; hide Grouped; hide N.Final; hide Rising;
  }

  /** Whoever declares nothing has no node and keeps the initial number. */
  lemma ReadyToRead(block: seq<N.Declared>, sort: set<Key> -> seq<Key>, x: N.Numbering, sorter: S.Sorter)
    requires Listing(sort) && N.Numbers(block, sort, x) && x.trace != [] && sorter.Valid() && x.nodes == sorter.nodes
    requires |sorter.own| == |block| && N.Final(x) == S.Marks(sorter.level, sorter.placed, sorter.aborted)
    ensures forall t: nat :: t < |sorter.own| && sorter.own[t] == [] ==> sorter.level[t] == S.INITIAL
    ensures forall t: nat :: t < |sorter.own| && S.Live(sorter.aborted, t) ==> sorter.level[t] > 0
  {
    forall t: nat | t < |sorter.own|
      ensures sorter.own[t] == [] ==> sorter.level[t] == S.INITIAL
      ensures S.Live(sorter.aborted, t) ==> sorter.level[t] > 0
    {
      if S.Live(sorter.aborted, t) {
        hide N.Numbers; hide S.Tables; hide S.Uniform;
        Safety.AllNumbered(block, sort, x, t);
      }
      if sorter.own[t] == [] {
        NoNodes(sorter, t);
        Safety.IdleKeeps(block, sort, x, t);
      }
    }
  }

  lemma NoNodes(sorter: S.Sorter, t: nat)
    requires sorter.Valid() && t < |sorter.own| && sorter.own[t] == []
    ensures forall n :: 0 <= n < |sorter.nodes| ==> sorter.nodes[n].tx != t
  {
    assert S.Lists(sorter.nodes, sorter.own[t], t);
  }

  // ---- One block, one plan ----

  lemma UsedNumbers(level: seq<int>, aborted: seq<bool>, waves: seq<seq<nat>>, numbers: seq<int>, v: int)
    requires Grouped(level, aborted, waves, numbers)
    ensures v in numbers <==> exists t: nat :: t < |level| && S.Live(aborted, t) && level[t] == v
  {
    if v in numbers {
      var c :| 0 <= c < |numbers| && numbers[c] == v;
      assert Group(level, aborted, waves[c], numbers[c]) && waves[c][0] in waves[c];
    }
  }

  lemma SameWaves(level: seq<int>, aborted: seq<bool>, waves: seq<seq<nat>>, numbers: seq<int>, waves': seq<seq<nat>>,
      numbers': seq<int>)
    requires Grouped(level, aborted, waves, numbers) && Grouped(level, aborted, waves', numbers')
    ensures waves == waves'
  {
    forall v
      ensures v in numbers <==> v in numbers'
    {
      UsedNumbers(level, aborted, waves, numbers, v);
      UsedNumbers(level, aborted, waves', numbers', v);
    }
    Numbers.SameKeys(numbers, numbers');
    forall c | 0 <= c < |waves|
      ensures waves[c] == waves'[c]
    {
      assert Group(level, aborted, waves[c], numbers[c]) && Group(level, aborted, waves'[c], numbers[c]);
      Numbers.SameKeys(waves[c], waves'[c]);
    }
  }

  /** `buildACGPlan` is deterministic: whoever recomputes the plan of a block gets the same. */
  lemma PlanDecides(block: seq<Tx>, sort: set<Key> -> seq<Key>, x: N.Numbering, y: N.Numbering, plan: AcgPlan,
      plan': AcgPlan)
    requires Planned(block, sort, x, plan) && Planned(block, sort, y, plan')
    ensures plan == plan'
  {
    hide N.Numbers; hide Grouped; hide S.Live;
    Unique.NumbersDecide(AccessesOf(block), sort, x, y);
    var m := N.Final(x);
    var numbers :| Grouped(m.level, m.aborted, plan.waves, numbers);
    var numbers' :| Grouped(m.level, m.aborted, plan'.waves, numbers');
    SameWaves(m.level, m.aborted, plan.waves, numbers, plan'.waves, numbers');
    Numbers.SameKeys(plan.aborted, plan'.aborted);
  }

  // ---- What the plan is good for ----

  lemma GroupOf(level: seq<int>, aborted: seq<bool>, waves: seq<seq<nat>>, numbers: seq<int>, c: nat, p: nat)
    requires Grouped(level, aborted, waves, numbers) && W.At(waves, c, p)
    ensures waves[c][p] < |level| && S.Live(aborted, waves[c][p]) && level[waves[c][p]] == numbers[c]
  {
    assert Group(level, aborted, waves[c], numbers[c]) && waves[c][p] in waves[c];
  }

  /** Where a live transaction stands. */
  lemma PlaceOf(level: seq<int>, aborted: seq<bool>, waves: seq<seq<nat>>, numbers: seq<int>, t: nat)
      returns (c: nat, p: nat)
    requires Grouped(level, aborted, waves, numbers) && t < |level| && S.Live(aborted, t)
    ensures W.At(waves, c, p) && waves[c][p] == t && numbers[c] == level[t]
  {
    c :| 0 <= c < |numbers| && numbers[c] == level[t];
    assert Group(level, aborted, waves[c], numbers[c]);
    p :| 0 <= p < |waves[c]| && waves[c][p] == t;
  }

  /** The waves and the aborted transactions share out the block, nobody twice. */
  lemma PlanShares(block: seq<Tx>, sort: set<Key> -> seq<Key>, x: N.Numbering, plan: AcgPlan)
    requires Planned(block, sort, x, plan)
    ensures W.Arranged(block, plan.waves)
    ensures forall t: nat :: t < |block| ==> (t !in plan.aborted <==> Colouring.Scheduled(plan.waves, t))
  {
    hide N.Numbers; hide Grouped; hide N.Final; hide Rising;
    Safety.Ends(AccessesOf(block), sort, x);
    var m := N.Final(x);
    var numbers :| Grouped(m.level, m.aborted, plan.waves, numbers);
    GroupsArranged(block, m, plan.waves, numbers);
    forall t: nat | t < |block|
      ensures t !in plan.aborted <==> Colouring.Scheduled(plan.waves, t)
    {
      if S.Live(m.aborted, t) {
        var c, p := PlaceOf(m.level, m.aborted, plan.waves, numbers, t);
        assert t in plan.waves[c];
      }
      if Colouring.Scheduled(plan.waves, t) {
        var c :| 0 <= c < |plan.waves| && t in plan.waves[c];
        var p :| 0 <= p < |plan.waves[c]| && plan.waves[c][p] == t;
        GroupOf(m.level, m.aborted, plan.waves, numbers, c, p);
      }
    }
  }

  lemma GroupsArranged(block: seq<Tx>, m: S.Marks, waves: seq<seq<nat>>, numbers: seq<int>)
    requires Grouped(m.level, m.aborted, waves, numbers) && |m.level| == |block|
    ensures W.Arranged(block, waves)
  {
    forall c | 0 <= c < |waves|
      ensures W.InBlock(block, waves[c])
    {
      forall p | 0 <= p < |waves[c]|
        ensures waves[c][p] < |block|
      {
        GroupOf(m.level, m.aborted, waves, numbers, c, p);
      }
    }
    forall c: nat, p: nat, d: nat, r: nat | W.At(waves, c, p) && W.At(waves, d, r) && (c, p) != (d, r)
      ensures waves[c][p] != waves[d][r]
    {
      GroupOf(m.level, m.aborted, waves, numbers, c, p);
      GroupOf(m.level, m.aborted, waves, numbers, d, r);
      assert Group(m.level, m.aborted, waves[c], numbers[c]);
    }
  }

  /** No live transaction writes a row that a later live one of the same number reads. */
  ghost predicate EqualsApart(block: seq<Tx>, m: S.Marks, s: Shard) {
    && |m.level| == |m.aborted| == |block|
    && forall i, j, a, b ::
      && 0 <= i < j < |block| && S.Live(m.aborted, i) && S.Live(m.aborted, j) && m.level[i] == m.level[j]
      && a in DeclaredWrites(block[i]) && b in DeclaredReads(block[j])
      ==> Qualify(s, a) != Qualify(s, b)
  }

  /** The numbers alone decide whether the waves keep written and read rows apart. */
  lemma NumbersDecide(block: seq<Tx>, m: S.Marks, waves: seq<seq<nat>>, numbers: seq<int>, s: Shard)
    requires Grouped(m.level, m.aborted, waves, numbers) && |m.level| == |m.aborted| == |block|
    ensures W.RowsApart(block, waves, s) <==> EqualsApart(block, m, s)
  {
    hide DeclaredReads; hide DeclaredWrites; hide Qualify;
    GroupsArranged(block, m, waves, numbers);
    if W.RowsApart(block, waves, s) {
      forall i, j, a, b | 0 <= i < j < |block| && S.Live(m.aborted, i) && S.Live(m.aborted, j)
        && m.level[i] == m.level[j] && a in DeclaredWrites(block[i]) && b in DeclaredReads(block[j])
        ensures Qualify(s, a) != Qualify(s, b)
      {
        SameWave(m, waves, numbers, block, s, i, j, a, b);
      }
    }
    if EqualsApart(block, m, s) {
      forall c | 0 <= c < |waves|
        ensures W.InBlock(block, waves[c]) && W.WaveApart(block, waves[c], s)
      {
        GroupApart(block, m, waves, numbers, s, c);
      }
    }
  }

  lemma SameWave(m: S.Marks, waves: seq<seq<nat>>, numbers: seq<int>, block: seq<Tx>, s: Shard, i: nat, j: nat,
      a: Key, b: Key)
    requires Grouped(m.level, m.aborted, waves, numbers) && |m.level| == |m.aborted| == |block|
    requires W.RowsApart(block, waves, s)
    requires i < j < |block| && S.Live(m.aborted, i) && S.Live(m.aborted, j) && m.level[i] == m.level[j]
    requires a in DeclaredWrites(block[i]) && b in DeclaredReads(block[j])
    ensures Qualify(s, a) != Qualify(s, b)
  {
    hide DeclaredReads; hide DeclaredWrites; hide Qualify;
    var c, p := PlaceOf(m.level, m.aborted, waves, numbers, i);
    assert Group(m.level, m.aborted, waves[c], numbers[c]);
    assert j in waves[c];
    var q :| 0 <= q < |waves[c]| && waves[c][q] == j;
    assert p < q;
    W.ApartIn(block, waves, s, c);
  }

  lemma GroupApart(block: seq<Tx>, m: S.Marks, waves: seq<seq<nat>>, numbers: seq<int>, s: Shard, c: nat)
    requires Grouped(m.level, m.aborted, waves, numbers) && EqualsApart(block, m, s) && c < |waves|
    ensures W.InBlock(block, waves[c]) && W.WaveApart(block, waves[c], s)
  {
    hide DeclaredReads; hide DeclaredWrites; hide Qualify;
    assert Group(m.level, m.aborted, waves[c], numbers[c]);
    forall p | 0 <= p < |waves[c]|
      ensures waves[c][p] < |block| && S.Live(m.aborted, waves[c][p]) && m.level[waves[c][p]] == numbers[c]
    {
      GroupOf(m.level, m.aborted, waves, numbers, c, p);
    }
  }

  /** The exact condition: the access lists of a block make every block with them, whose programs
      keep to them, execute as serial replay of the plan's order exactly if no live transaction
      writes a row that a later live one of the same number reads. */
  lemma SerialExactly(block: seq<Tx>, sort: set<Key> -> seq<Key>, x: N.Numbering, plan: AcgPlan, s: Shard)
    requires Listing(sort) && Planned(block, sort, x, plan)
    ensures EqualsApart(block, N.Final(x), s) <==>
            (forall other, base :: W.SameLists(block, other) && W.Waved(other, plan.waves)
              && W.InBlock(other, W.Flat(plan.waves, |plan.waves|)) && W.WavesKeep(other, plan.waves, s, base, sort)
              ==> W.ReplaysSerially(other, plan.waves, s, base, sort))
  {
    hide *;
    RowsByNumbers(block, sort, x, plan, s);
    PlanShares(block, sort, x, plan);
    W.SerialExactly(block, plan.waves, s, sort);
  }

  lemma RowsByNumbers(block: seq<Tx>, sort: set<Key> -> seq<Key>, x: N.Numbering, plan: AcgPlan, s: Shard)
    requires Planned(block, sort, x, plan)
    ensures x.trace != [] && (W.RowsApart(block, plan.waves, s) <==> EqualsApart(block, N.Final(x), s))
  {
    hide N.Numbers; hide Grouped; hide N.Final; hide W.RowsApart; hide EqualsApart;
    Safety.Ends(AccessesOf(block), sort, x);
    var numbers :| Grouped(N.Final(x).level, N.Final(x).aborted, plan.waves, numbers);
    NumbersDecide(block, N.Final(x), plan.waves, numbers, s);
  }

  // ---- When the condition holds ----

  lemma AboveApart(block: seq<Tx>, m: S.Marks, s: Shard)
    requires Safety.WritersAbove(AccessesOf(block), m) && W.NamesApart(block, s)
    ensures EqualsApart(block, m, s)
  {
    hide Qualify; hide DeclaredReads; hide DeclaredWrites;
    var d := AccessesOf(block);
    forall i, j, a, b | 0 <= i < j < |block| && S.Live(m.aborted, i) && S.Live(m.aborted, j)
      && m.level[i] == m.level[j] && a in DeclaredWrites(block[i]) && b in DeclaredReads(block[j])
      ensures Qualify(s, a) != Qualify(s, b)
    {
      assert a in DeclaredKeys(block[i]) && b in DeclaredKeys(block[j]);
      assert a in d[i].writeKeys && b in d[j].readKeys;
    }
  }

  /** Without a cycle among the dependencies of addresses the plan executes as serial replay, in
      state and receipts, however many addresses a transaction writes. */
  lemma AcyclicIsSerial(block: seq<Tx>, sort: set<Key> -> seq<Key>, x: N.Numbering, plan: AcgPlan, s: Shard,
      base: Rows, receipts: seq<W.Receipt>)
    requires Listing(sort) && Planned(block, sort, x, plan) && !Digraphs.Cyclic(O.EdgesOf(x.adj))
    requires W.NamesApart(block, s) && W.Waved(block, plan.waves) && W.WavesKeep(block, plan.waves, s, base, sort)
    requires W.Receipts(block, plan.waves, s, base, sort, |plan.waves|, receipts)
    ensures W.InBlock(block, W.Flat(plan.waves, |plan.waves|)) && |receipts| == |W.Flat(plan.waves, |plan.waves|)|
    ensures W.AfterWaves(block, plan.waves, s, base, sort, |plan.waves|)
         == W.Replay(block, W.Flat(plan.waves, |plan.waves|), s, base, sort, |receipts|)
    ensures forall i :: 0 <= i < |receipts| ==>
      receipts[i] == W.ReplayReceipt(block, W.Flat(plan.waves, |plan.waves|), s, base, sort, i)
  {
    PlanNumbers(block, sort, x, plan);
    hide *;
    Safety.AcyclicWritersAbove(AccessesOf(block), sort, x);
    AboveApart(block, N.Final(x), s);
    RowsByNumbers(block, sort, x, plan, s);
    W.ReceiptsSerial(block, plan.waves, s, base, sort, receipts);
  }

  lemma PlanNumbers(block: seq<Tx>, sort: set<Key> -> seq<Key>, x: N.Numbering, plan: AcgPlan)
    requires Planned(block, sort, x, plan)
    ensures N.Numbers(AccessesOf(block), sort, x) && x.trace != []
  {
  }

  /** If besides every transaction writes at most one address, transactions of a wave do not
      conflict at all: the waves are as good as those of BSX. */
  lemma OneWriteIsPeaceful(block: seq<Tx>, sort: set<Key> -> seq<Key>, x: N.Numbering, plan: AcgPlan)
    requires Listing(sort) && Planned(block, sort, x, plan) && !Digraphs.Cyclic(O.EdgesOf(x.adj))
    requires forall t, a, b ::
      0 <= t < |block| && a in DeclaredWrites(block[t]) && b in DeclaredWrites(block[t]) ==> a == b
    ensures forall c :: 0 <= c < |plan.waves| ==>
      Colouring.Peaceful(block, plan.waves[c]) && Colouring.Separate(block, plan.waves[c])
  {
    hide N.Numbers; hide Grouped; hide N.Final; hide Rising; hide Digraphs.Cyclic; hide O.EdgesOf;
    hide DeclaredReads; hide DeclaredWrites;
    var d := AccessesOf(block);
    Safety.OneWriteFirst(d, sort, x);
    Safety.FirstApart(d, sort, x);
    Safety.Ends(d, sort, x);
    var numbers :| Grouped(N.Final(x).level, N.Final(x).aborted, plan.waves, numbers);
    forall c | 0 <= c < |plan.waves|
      ensures Colouring.Peaceful(block, plan.waves[c]) && Colouring.Separate(block, plan.waves[c])
    {
      PeacefulGroup(block, N.Final(x), plan.waves, numbers, c);
      Colouring.PeacefulIsSeparate(block, plan.waves[c]);
    }
  }

  lemma PeacefulGroup(block: seq<Tx>, m: S.Marks, waves: seq<seq<nat>>, numbers: seq<int>, c: nat)
    requires Grouped(m.level, m.aborted, waves, numbers) && Safety.NumbersApart(AccessesOf(block), m) && c < |waves|
    ensures Colouring.Peaceful(block, waves[c])
  {
    hide DeclaredReads; hide DeclaredWrites;
    var wave := waves[c];
    assert Group(m.level, m.aborted, wave, numbers[c]);
    forall p | 0 <= p < |wave|
      ensures wave[p] < |block| && S.Live(m.aborted, wave[p]) && m.level[wave[p]] == numbers[c]
    {
      GroupOf(m.level, m.aborted, waves, numbers, c, p);
    }
    forall p, r | 0 <= p < r < |wave|
      ensures !Colouring.Conflicts(block[wave[p]], block[wave[r]])
    {
      assert !Safety.Clash(AccessesOf(block)[wave[p]], AccessesOf(block)[wave[r]]);
    }
  }

  // ---- When it does not ----

  /** The first transaction writes `a`, the second reads and writes `a` and `b`. */
  function TwistBlock(first: Tx, second: Tx, a: Key, b: Key): seq<Tx> {
    [first.(accessList := [Access(a, Write)]),
     second.(accessList := [Access(a, ReadWrite), Access(b, ReadWrite)])]
  }

  lemma TwistAccesses(first: Tx, second: Tx, a: Key, b: Key)
    ensures AccessesOf(TwistBlock(first, second, a, b)) == Safety.Twist(a, b)
  {
    var block := TwistBlock(first, second, a, b);
    var wa, ra, rb := Access(a, Write), Access(a, ReadWrite), Access(b, ReadWrite);
    assert wa in block[0].accessList && ra in block[1].accessList && rb in block[1].accessList;
    assert DeclaredReads(block[0]) == {} && DeclaredWrites(block[0]) == {a};
    assert DeclaredReads(block[1]) == {a, b} && DeclaredWrites(block[1]) == {a, b};
  }

  /** Both end in one wave, and for some programs that keep to their access lists the second
      misses what the first writes, although the plan lists it later. */
  lemma TwistBreaks(first: Tx, second: Tx, a: Key, b: Key, sort: set<Key> -> seq<Key>, x: N.Numbering, plan: AcgPlan,
      s: Shard) returns (other: seq<Tx>)
    requires a != b && Listing(sort) && sort({a, b}) == [a, b]
    requires Planned(TwistBlock(first, second, a, b), sort, x, plan)
    ensures plan.waves == [[0, 1]] && plan.aborted == []
    ensures W.SameLists(TwistBlock(first, second, a, b), other) && W.Waved(other, plan.waves)
    ensures W.InBlock(other, W.Flat(plan.waves, |plan.waves|)) && W.WavesKeep(other, plan.waves, s, map[], sort)
    ensures !W.ReplaysSerially(other, plan.waves, s, map[], sort)
  {
    var block := TwistBlock(first, second, a, b);
    hide N.Numbers; hide W.Arranged; hide Listing; hide Grouped; hide W.Waved; hide W.WavesKeep; hide W.ReplaysSerially;
    hide W.Flat; hide Qualify; hide W.InBlock;
    TwistAccesses(first, second, a, b);
    Safety.TwistUnsorted(a, b, sort, x);
    PlanShares(block, sort, x, plan);
    var numbers :| Grouped(N.Final(x).level, N.Final(x).aborted, plan.waves, numbers);
    TwistWave(plan.waves, numbers);
    NobodyIn(plan.aborted);
    assert Safety.Twist(a, b)[0].writeKeys == {a} && Safety.Twist(a, b)[1].readKeys == {a, b};
    assert W.InBlock(block, plan.waves[0]) by { FirstInBlock(block, plan.waves); }
    other := W.SharedRowBreaks(block, plan.waves, s, sort, 0, 0, 1, a, a);
  }

  lemma TwistWave(waves: seq<seq<nat>>, numbers: seq<int>)
    requires Grouped([12, 12], [false, false], waves, numbers)
    ensures waves == [[0, 1]]
  {
    var c, p := PlaceOf([12, 12], [false, false], waves, numbers, 0);
    forall d | 0 <= d < |numbers|
      ensures numbers[d] == 12
    {
      assert Group([12, 12], [false, false], waves[d], numbers[d]);
      GroupOf([12, 12], [false, false], waves, numbers, d, 0);
    }
    DistinctCount(numbers, {12});
    var wave := waves[0];
    assert Group([12, 12], [false, false], wave, 12);
    DistinctCount(wave, {0, 1});
    assert wave[0] in wave && wave[1] in wave;
    assert wave == [0, 1];
  }

  lemma FirstInBlock(block: seq<Tx>, waves: seq<seq<nat>>)
    requires W.Arranged(block, waves) && waves != []
    ensures W.InBlock(block, waves[0])
  {
  }

  lemma Somebody(list: seq<nat>)
    requires list != []
    ensures exists t: nat :: t in list
  {
    assert list[0] in list;
  }

  lemma NobodyIn(list: seq<nat>)
    requires forall t: nat :: t !in list
    ensures list == []
  {
    if list != [] {
      Somebody(list);
    }
  }
}
