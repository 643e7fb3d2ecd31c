/** Which numbers `nezhaSortInQueue` gives (`acg_plugins.go`), without its loops: the head gets the
    number after the highest read; writers without a number get, in queue order, the free numbers
    above it one after the other; of the writers that share a number above the floor the first
    keeps it; all others get consecutive numbers above everything, by old number and queue order.
    Equal marks before a queue therefore give equal marks after it. */
module NezhaNumbers {
  import opened NezhaSort

  /** The free number number `j` above `c`. */
  ghost function NthFree(keys: seq<int>, c: int, j: nat): int {
    LeastFree(keys, if j == 0 then c else NthFree(keys, c, j - 1))
  }

  ghost predicate Given(keys: seq<int>, c: int, j: nat, v: int) {
    exists i: nat :: i <= j && NthFree(keys, c, i) == v
  }

  /** Free numbers rise from `c`, avoid `keys` and leave out nothing else. */
  lemma {:induction false} FreeNumbersRise(keys: seq<int>, c: int, j: nat)
    ensures c < NthFree(keys, c, j) && NthFree(keys, c, j) !in keys
    ensures forall i: nat :: i < j ==> NthFree(keys, c, i) < NthFree(keys, c, j)
    ensures forall v :: c < v <= NthFree(keys, c, j) ==> v in keys || Given(keys, c, j, v)
  {
    hide LeastFree;
    if j > 0 {
      FreeNumbersRise(keys, c, j - 1);
      assert NthFree(keys, c, j) == LeastFree(keys, NthFree(keys, c, j - 1));
      forall v | c < v <= NthFree(keys, c, j) && v !in keys
        ensures Given(keys, c, j, v)
      {
        if v <= NthFree(keys, c, j - 1) {
          assert Given(keys, c, j - 1, v);
        }
      }
    } else {
      assert NthFree(keys, c, j) == LeastFree(keys, c);
    }
  }

  /** The live writers without a number among the first `n`, in queue order. */
  ghost function Frees(nodes: seq<Node>, aborted: seq<bool>, level: seq<int>, writers: seq<nat>, n: nat): seq<nat>
    requires n <= |writers|
  {
    if n == 0 then []
    else
      var before := Frees(nodes, aborted, level, writers, n - 1);
      if Unplaced(nodes, aborted, level, writers[n - 1]) then before + [writers[n - 1]] else before
  }

  /** Each node of the list gets the next number. */
  ghost function GiveAll(nodes: seq<Node>, x: Work, ids: seq<nat>): Work {
    if ids == [] then x
    else
      var y := GiveAll(nodes, x, ids[..|ids| - 1]);
      Give(nodes, y, ids[|ids| - 1], y.ceil + 1)
  }

  /** The writers of one number that must move: all but the first, which may stay above the floor. */
  ghost function Leavers(list: seq<nat>, stays: bool): seq<nat> {
    if stays && list != [] then list[1..] else list
  }

  /** The writers that must move, by number and then queue order. */
  ghost function Movers(bySeq: map<int, seq<nat>>, keys: seq<int>, floor: int, p: nat): seq<nat>
    requires p <= |keys|
  {
    if p == 0 then []
    else Movers(bySeq, keys, floor, p - 1) + Leavers(ListAt(bySeq, keys[p - 1]), keys[p - 1] > floor)
  }

  lemma {:induction false} GiveMore(nodes: seq<Node>, x: Work, ids: seq<nat>, more: seq<nat>)
    ensures GiveAll(nodes, x, ids + more) == GiveAll(nodes, GiveAll(nodes, x, ids), more)
  {
    if more == [] {
      assert ids + more == ids;
    } else {
      var n := |more| - 1;
      GiveMore(nodes, x, ids, more[..n]);
      assert (ids + more)[..|ids + more| - 1] == ids + more[..n];
    }
  }

  lemma {:induction false} MoveIsGive(nodes: seq<Node>, list: seq<nat>, raw: int, floor: int, x: Work, i: nat)
    requires i <= |list|
    ensures MoveUpTo(nodes, list, raw, floor, x, i) == GiveAll(nodes, x, Leavers(list[..i], raw > floor))
  {
    hide Give;
    if i > 0 {
      MoveIsGive(nodes, list, raw, floor, x, i - 1);
      var before, after := Leavers(list[..i - 1], raw > floor), Leavers(list[..i], raw > floor);
      if raw > floor && i == 1 {
        assert after == [] == before;
      } else {
        assert after == before + [list[i - 1]];
        assert after[..|after| - 1] == before;
      }
    }
  }

  lemma {:induction false} MovesAreGive(nodes: seq<Node>, bySeq: map<int, seq<nat>>, keys: seq<int>, floor: int,
      x: Work, p: nat)
    requires p <= |keys|
    ensures MoveLists(nodes, bySeq, keys, floor, x, p) == GiveAll(nodes, x, Movers(bySeq, keys, floor, p))
  {
    if p > 0 {
      MovesAreGive(nodes, bySeq, keys, floor, x, p - 1);
      var list, raw := ListAt(bySeq, keys[p - 1]), keys[p - 1];
      var y := MoveLists(nodes, bySeq, keys, floor, x, p - 1);
      MoveIsGive(nodes, list, raw, floor, y, |list|);
      assert list[..|list|] == list;
      GiveMore(nodes, x, Movers(bySeq, keys, floor, p - 1), Leavers(list, raw > floor));
    }
  }

  /** Lists of nodes the tables have room for. */
  ghost predicate Fits(nodes: seq<Node>, x: Work) {
    |x.placed| == |nodes| && forall n :: 0 <= n < |nodes| ==> nodes[n].tx < |x.level|
  }

  ghost predicate Untouched(nodes: seq<Node>, ids: seq<nat>, t: nat) {
    forall j :: 0 <= j < |ids| && ids[j] < |nodes| ==> nodes[ids[j]].tx != t
  }

  /** Only the nodes of the list were placed and only their transactions renumbered. */
  ghost predicate Just(nodes: seq<Node>, ids: seq<nat>, x: Work, y: Work) {
    && |y.level| == |x.level| && |y.placed| == |x.placed|
    && (forall t: nat :: t < |x.level| && Untouched(nodes, ids, t) ==> y.level[t] == x.level[t])
    && (forall n: nat :: n < |x.placed| ==> (y.placed[n] <==> x.placed[n] || n in ids))
  }

  ghost predicate NumberedFrom(nodes: seq<Node>, ids: seq<nat>, level: seq<int>, c: int) {
    forall j :: 0 <= j < |ids| && ids[j] < |nodes| && nodes[ids[j]].tx < |level| ==>
      level[nodes[ids[j]].tx] == c + 1 + j
  }

  lemma {:induction false} GivesInTurn(nodes: seq<Node>, x: Work, ids: seq<nat>)
    requires Fits(nodes, x) && OnePerTx(nodes, ids)
    ensures var y := GiveAll(nodes, x, ids);
      Just(nodes, ids, x, y) && NumberedFrom(nodes, ids, y.level, x.ceil) && y.ceil == x.ceil + |ids|
  {
    if ids != [] {
      var n := |ids| - 1;
      GivesInTurn(nodes, x, ids[..n]);
      var y, z := GiveAll(nodes, x, ids[..n]), GiveAll(nodes, x, ids);
      assert ids == ids[..n] + [ids[n]];
      forall t: nat | t < |x.level| && Untouched(nodes, ids, t)
        ensures z.level[t] == x.level[t]
      {
        assert nodes[ids[n]].tx != t;
        assert Untouched(nodes, ids[..n], t);
      }
      forall j | 0 <= j < |ids|
        ensures z.level[nodes[ids[j]].tx] == x.ceil + 1 + j
      {
        assert j < n ==> ids[..n][j] == ids[j];
      }
    }
  }

  ghost predicate NumberedFree(nodes: seq<Node>, ids: seq<nat>, level: seq<int>, keys: seq<int>, c: int) {
    forall j :: 0 <= j < |ids| && ids[j] < |nodes| && nodes[ids[j]].tx < |level| ==>
      level[nodes[ids[j]].tx] == NthFree(keys, c, j)
  }

  /** The highest number once `n` free numbers above `c` are given. */
  ghost function AfterFrees(keys: seq<int>, c: int, n: nat): int {
    if n == 0 then c else NthFree(keys, c, n - 1)
  }

  lemma {:induction false} FreesIn(nodes: seq<Node>, aborted: seq<bool>, level: seq<int>, writers: seq<nat>, n: nat,
      w: nat)
    requires n <= |writers|
    ensures w in Frees(nodes, aborted, level, writers, n)
      <==> w in writers[..n] && Unplaced(nodes, aborted, level, w)
  {
    if n > 0 {
      FreesIn(nodes, aborted, level, writers, n - 1, w);
      assert writers[..n] == writers[..n - 1] + [writers[n - 1]];
    }
  }

  ghost predicate FreedInTurn(nodes: seq<Node>, ids: seq<nat>, keys: seq<int>, x: Work, y: Work) {
    && OnePerTx(nodes, ids) && Just(nodes, ids, x, y) && NumberedFree(nodes, ids, y.level, keys, x.ceil)
    && y.ceil == AfterFrees(keys, x.ceil, |ids|)
  }

  lemma {:induction false} FreesGetFree(nodes: seq<Node>, aborted: seq<bool>, writers: seq<nat>, keys: seq<int>,
      x: Work, n: nat)
    requires n <= |writers| && Fits(nodes, x) && OnePerTx(nodes, writers)
    ensures var ids, y := Frees(nodes, aborted, x.level, writers, n), FreeUpTo(nodes, aborted, writers, keys, x, n);
      FreedInTurn(nodes, ids, keys, x, y)
  {
    hide Give; hide LeastFree; hide FreedInTurn;
    if n == 0 {
      FreesNobody(nodes, keys, x);
    } else {
      FreesGetFree(nodes, aborted, writers, keys, x, n - 1);
      var ids, y := Frees(nodes, aborted, x.level, writers, n - 1), FreeUpTo(nodes, aborted, writers, keys, x, n - 1);
      FreesEarlier(nodes, aborted, x.level, writers, n - 1);
      FreeOneMore(nodes, ids, x, y, keys, writers[n - 1]);
      hide OnePerTx; hide Fits; hide Untouched;
      assert Unplaced(nodes, aborted, y.level, writers[n - 1]) == Unplaced(nodes, aborted, x.level, writers[n - 1]);
    }
  }

  lemma FreesEarlier(nodes: seq<Node>, aborted: seq<bool>, level: seq<int>, writers: seq<nat>, n: nat)
    requires n < |writers| && OnePerTx(nodes, writers)
    ensures Untouched(nodes, Frees(nodes, aborted, level, writers, n), nodes[writers[n]].tx)
  {
    var ids := Frees(nodes, aborted, level, writers, n);
    forall j | 0 <= j < |ids|
      ensures ids[j] < |nodes| && nodes[ids[j]].tx != nodes[writers[n]].tx
    {
      FreesIn(nodes, aborted, level, writers, n, ids[j]);
    }
  }

  lemma FreesNobody(nodes: seq<Node>, keys: seq<int>, x: Work)
    ensures FreedInTurn(nodes, [], keys, x, x)
  {
  }

  lemma FreeOneMore(nodes: seq<Node>, ids: seq<nat>, x: Work, y: Work, keys: seq<int>, w: nat)
    requires Fits(nodes, x) && w < |nodes| && Untouched(nodes, ids, nodes[w].tx) && FreedInTurn(nodes, ids, keys, x, y)
    ensures |y.level| == |x.level| && y.level[nodes[w].tx] == x.level[nodes[w].tx]
    ensures FreedInTurn(nodes, ids + [w], keys, x, Give(nodes, y, w, LeastFree(keys, y.ceil)))
  {
    hide LeastFree;
    var z := Give(nodes, y, w, LeastFree(keys, y.ceil));
    forall t: nat | t < |x.level| && Untouched(nodes, ids + [w], t)
      ensures z.level[t] == x.level[t]
    {
      assert (ids + [w])[|ids|] == w;
      assert forall j :: 0 <= j < |ids| ==> (ids + [w])[j] == ids[j];
      assert Untouched(nodes, ids, t);
    }
  }

  // ---- One queue ----

  /** The highest number once the head is placed, and the number that kept ones must exceed. */
  ghost function Ceiling(same: seq<nat>, top: int): int {
    (if top == 0 then INITIAL - 1 else top) + if same == [] then 0 else 1
  }

  ghost function Floor(same: seq<nat>, top: int): int {
    if same == [] then top else Ceiling(same, top)
  }

  ghost function Above(c: int, keys: seq<int>): int {
    if |keys| > 0 && c < keys[|keys| - 1] then keys[|keys| - 1] else c
  }

  /** The unnumbered live writers of a queue, and those whose number cannot stay. */
  ghost function FreeWriters(nodes: seq<Node>, q: Queue, m: Marks, m': Marks, value: int): seq<nat>
    requires QueueOf(nodes, q)
  {
    Frees(nodes, m'.aborted, ReadLevel(m.level, m.aborted, TxOf(nodes, q.readers), value), q.writers, |q.writers|)
  }

  ghost function MovedWriters(nodes: seq<Node>, q: Queue, m: Marks, m': Marks, top: int, value: int, keys: seq<int>):
      seq<nat>
    requires QueueOf(nodes, q)
  {
    var readers := TxOf(nodes, q.readers);
    var level := ReadLevel(m.level, m.aborted, readers, value);
    Movers(Buckets(nodes, readers, level, m'.aborted, q.writers, keys), keys,
      Floor(Heads(nodes, q, m.aborted), top), |keys|)
  }

  /** The tables have a number, not a negative one, for every transaction. */
  ghost predicate Complete(nodes: seq<Node>, m: Marks) {
    Fits(nodes, Work(m.level, m.placed, 0)) && forall t :: 0 <= t < |m.level| ==> m.level[t] >= 0
  }

  lemma {:induction false} KeptApart(nodes: seq<Node>, readers: set<nat>, level: seq<int>, aborted: seq<bool>,
      writers: seq<nat>, n: nat, s: int)
    requires n <= |writers| && OnePerTx(nodes, writers)
    ensures var list := KeptAt(nodes, readers, level, aborted, writers, n, s);
      && OnePerTx(nodes, list)
      && forall w :: w in list ==> w in writers[..n] && KeptWith(nodes, readers, level, aborted, w, s)
  {
    if n > 0 {
      KeptApart(nodes, readers, level, aborted, writers, n - 1, s);
      var before := KeptAt(nodes, readers, level, aborted, writers, n - 1, s);
      assert writers[..n] == writers[..n - 1] + [writers[n - 1]];
      forall j | 0 <= j < |before|
        ensures nodes[before[j]].tx != nodes[writers[n - 1]].tx
      {
        assert before[j] in writers[..n - 1];
      }
      hide KeptWith;
    }
  }

  /** Movers have a number among the first `p`, and there is one per transaction. */
  ghost predicate MoverList(nodes: seq<Node>, readers: set<nat>, level: seq<int>, aborted: seq<bool>, keys: seq<int>,
      ids: seq<nat>) {
    && OnePerTx(nodes, ids)
    && forall w :: w in ids ==> exists s :: s in keys && KeptWith(nodes, readers, level, aborted, w, s)
  }

  lemma {:induction false} MoversApart(nodes: seq<Node>, readers: set<nat>, level: seq<int>, aborted: seq<bool>,
      writers: seq<nat>, bySeq: map<int, seq<nat>>, keys: seq<int>, floor: int, p: nat)
    requires p <= |keys| && Ascending(keys) && OnePerTx(nodes, writers)
    requires bySeq == Buckets(nodes, readers, level, aborted, writers, keys)
    ensures MoverList(nodes, readers, level, aborted, keys[..p], Movers(bySeq, keys, floor, p))
  {
    hide Buckets; hide KeptAt; hide ListAt; hide MoverList; hide OnePerTx; hide Leavers;
    if p == 0 {
      NoMovers(nodes, readers, level, aborted, keys[..0]);
    } else {
      MoversApart(nodes, readers, level, aborted, writers, bySeq, keys, floor, p - 1);
      var ids, s := Movers(bySeq, keys, floor, p - 1), keys[p - 1];
      KeptApart(nodes, readers, level, aborted, writers, |writers|, s);
      BucketOf(nodes, readers, level, aborted, writers, keys, p - 1);
      assert keys[..p] == keys[..p - 1] + [s];
      MoreMovers(nodes, readers, level, aborted, keys[..p - 1], s, ids, ListAt(bySeq, s), s > floor);
    }
  }

  lemma NoMovers(nodes: seq<Node>, readers: set<nat>, level: seq<int>, aborted: seq<bool>, keys: seq<int>)
    ensures MoverList(nodes, readers, level, aborted, keys, [])
  {
  }

  lemma BucketOf(nodes: seq<Node>, readers: set<nat>, level: seq<int>, aborted: seq<bool>, writers: seq<nat>,
      keys: seq<int>, p: nat)
    requires p < |keys|
    ensures ListAt(Buckets(nodes, readers, level, aborted, writers, keys), keys[p])
      == KeptAt(nodes, readers, level, aborted, writers, |writers|, keys[p])
  {
    hide KeptAt;
  }

  lemma MoreMovers(nodes: seq<Node>, readers: set<nat>, level: seq<int>, aborted: seq<bool>, keys: seq<int>, s: int,
      ids: seq<nat>, list: seq<nat>, stays: bool)
    requires MoverList(nodes, readers, level, aborted, keys, ids) && s !in keys && OnePerTx(nodes, list)
    requires forall w :: w in list ==> KeptWith(nodes, readers, level, aborted, w, s)
    ensures MoverList(nodes, readers, level, aborted, keys + [s], ids + Leavers(list, stays))
  {
    var more := Leavers(list, stays);
    assert forall w :: w in more ==> w in list;
    forall i, j | 0 <= i < |ids| && 0 <= j < |more|
      ensures nodes[ids[i]].tx != nodes[more[j]].tx
    {
      assert ids[i] in ids && more[j] in more;
      var r :| r in keys && KeptWith(nodes, readers, level, aborted, ids[i], r);
    }
    forall w | w in ids + more
      ensures exists r :: r in keys + [s] && KeptWith(nodes, readers, level, aborted, w, r)
    {
      if w in ids {
        var r :| r in keys && KeptWith(nodes, readers, level, aborted, w, r);
        assert r in keys + [s];
      } else {
        assert s in keys + [s] && KeptWith(nodes, readers, level, aborted, w, s);
      }
    }
    assert OnePerTx(nodes, more);
  }

  lemma {:induction false} SameFrees(nodes: seq<Node>, aborted: seq<bool>, level: seq<int>, level': seq<int>,
      writers: seq<nat>, n: nat)
    requires n <= |writers| && |level| == |level'|
    requires forall t :: 0 <= t < |level| ==> (level[t] == 0 <==> level'[t] == 0)
    ensures Frees(nodes, aborted, level, writers, n) == Frees(nodes, aborted, level', writers, n)
  {
    if n > 0 {
      SameFrees(nodes, aborted, level, level', writers, n - 1);
    }
  }

  /** After the reads and the head: only the head has changed, and it has the next number. */
  ghost predicate HeadDone(nodes: seq<Node>, readers: set<nat>, same: seq<nat>, top: int, level: seq<int>,
      placed: seq<bool>, x: Work) {
    var t := Head(nodes, same);
    && Fits(nodes, x) && x.ceil == Ceiling(same, top) && |x.level| == |level|
    && (t >= 0 ==>
      && t < |level| && level[t] != 0 && x.ceil > 0 && t in readers
      && x.level == level[t := x.ceil])
    && (t < 0 ==> x.level == level)
    && |placed| == |nodes|
    && (forall n: nat :: n < |nodes| ==> (x.placed[n] <==> placed[n] || (same != [] && n == same[0])))
  }

  lemma HeadNumbers(nodes: seq<Node>, q: Queue, m: Marks, top: int, value: int)
    requires QueueOf(nodes, q) && Complete(nodes, m) && |m.level| == |m.aborted|
    requires TopRead(m.level, m.aborted, TxOf(nodes, q.readers), top)
    requires LowRead(m.level, m.aborted, TxOf(nodes, q.readers), value)
    ensures var readers, same := TxOf(nodes, q.readers), Heads(nodes, q, m.aborted);
      var level := ReadLevel(m.level, m.aborted, readers, value);
      var placed := ReadPlaced(nodes, m.placed, m.aborted, q.readers);
      HeadDone(nodes, readers, same, top, level, placed, HeadWork(nodes, same, top, level, placed))
  {
    var readers, same := TxOf(nodes, q.readers), Heads(nodes, q, m.aborted);
    ReadsNumberAll(m.level, m.aborted, readers, top, value);
    if same != [] {
      BothHas(nodes, readers, m.aborted, q.writers, |q.writers|, same[0]);
    }
    hide TopRead; hide LowRead; hide Both;
    HeadOne(nodes, readers, same, top, ReadLevel(m.level, m.aborted, readers, value),
      ReadPlaced(nodes, m.placed, m.aborted, q.readers));
  }

  lemma ReadsNumberAll(level: seq<int>, aborted: seq<bool>, readers: set<nat>, top: int, value: int)
    requires |level| == |aborted| && forall t :: 0 <= t < |level| ==> level[t] >= 0
    requires TopRead(level, aborted, readers, top) && LowRead(level, aborted, readers, value)
    ensures top >= 0
    ensures forall t: nat :: t in readers && Live(aborted, t) ==> ReadLevel(level, aborted, readers, value)[t] != 0
  {
  }

  lemma HeadOne(nodes: seq<Node>, readers: set<nat>, same: seq<nat>, top: int, level: seq<int>, placed: seq<bool>)
    requires Fits(nodes, Work(level, placed, 0)) && top >= 0
    requires same != [] ==> same[0] < |nodes| && nodes[same[0]].tx in readers && level[nodes[same[0]].tx] != 0
    ensures HeadDone(nodes, readers, same, top, level, placed, HeadWork(nodes, same, top, level, placed))
  {
  }

  /** A free writer is no mover: one had no number, the other has. */
  lemma FreesStay(nodes: seq<Node>, readers: set<nat>, aborted: seq<bool>, level: seq<int>, writers: seq<nat>,
      keys: seq<int>, frees: seq<nat>, movers: seq<nat>)
    requires frees == Frees(nodes, aborted, level, writers, |writers|)
    requires MoverList(nodes, readers, level, aborted, keys, movers)
    ensures forall j :: 0 <= j < |frees| ==> frees[j] < |nodes| && Untouched(nodes, movers, nodes[frees[j]].tx)
    ensures forall t: nat :: t < |level| && level[t] != 0 ==> Untouched(nodes, frees, t)
    ensures forall t: nat :: t in readers ==> Untouched(nodes, movers, t)
  {
    hide OnePerTx; hide Frees;
    forall j | 0 <= j < |frees|
      ensures Unplaced(nodes, aborted, level, frees[j])
    {
      FreesIn(nodes, aborted, level, writers, |writers|, frees[j]);
    }
    forall i | 0 <= i < |movers|
      ensures exists s :: s in keys && KeptWith(nodes, readers, level, aborted, movers[i], s)
    {
      assert movers[i] in movers;
    }
  }

  ghost predicate NumbersAre(nodes: seq<Node>, same: seq<nat>, top: int, level: seq<int>, placed: seq<bool>,
      keys: seq<int>, frees: seq<nat>, movers: seq<nat>, level': seq<int>, placed': seq<bool>) {
    var ceil := Ceiling(same, top);
    && |level'| == |level| && |placed'| == |placed|
    && NumberedFree(nodes, frees, level', keys, ceil)
    && NumberedFrom(nodes, movers, level', Above(AfterFrees(keys, ceil, |frees|), keys))
    && (Head(nodes, same) >= 0 ==> Head(nodes, same) < |level| && level'[Head(nodes, same)] == ceil)
    && (forall t: nat ::
      t < |level| && t != Head(nodes, same) && Untouched(nodes, frees, t) && Untouched(nodes, movers, t) ==>
        level'[t] == level[t])
    && (forall n: nat :: n < |placed| ==>
      (placed'[n] <==> placed[n] || (same != [] && n == same[0]) || n in frees || n in movers))
  }

  /** The three phases put together. */
  lemma PhasesGive(nodes: seq<Node>, readers: set<nat>, aborted: seq<bool>, writers: seq<nat>, same: seq<nat>, top: int,
      level: seq<int>, placed: seq<bool>, keys: seq<int>, frees: seq<nat>, movers: seq<nat>, x: Work, y: Work, z: Work)
    requires HeadDone(nodes, readers, same, top, level, placed, x)
    requires FreedInTurn(nodes, frees, keys, x, y)
    requires Just(nodes, movers, Raised(y, keys), z) && NumberedFrom(nodes, movers, z.level, Raised(y, keys).ceil)
    requires frees == Frees(nodes, aborted, level, writers, |writers|)
    requires MoverList(nodes, readers, level, aborted, keys, movers)
    ensures NumbersAre(nodes, same, top, level, placed, keys, frees, movers, z.level, z.placed)
  {
    FreesStay(nodes, readers, aborted, level, writers, keys, frees, movers);
    hide Frees; hide MoverList; hide OnePerTx; hide AfterFrees; hide NthFree;
    var head := Head(nodes, same);
    if head >= 0 {
      assert Untouched(nodes, frees, head) && Untouched(nodes, movers, head);
    }
  }

  lemma QueueNumbers(nodes: seq<Node>, q: Queue, m: Marks, m': Marks, top: int, value: int, keys: seq<int>)
    requires QueueResult(nodes, q, m, m', top, value, keys) && Complete(nodes, m)
    ensures var level := ReadLevel(m.level, m.aborted, TxOf(nodes, q.readers), value);
      var placed := ReadPlaced(nodes, m.placed, m.aborted, q.readers);
      NumbersAre(nodes, Heads(nodes, q, m.aborted), top, level, placed, keys, FreeWriters(nodes, q, m, m', value),
        MovedWriters(nodes, q, m, m', top, value, keys), m'.level, m'.placed)
  {
    var readers, same := TxOf(nodes, q.readers), Heads(nodes, q, m.aborted);
    var level := ReadLevel(m.level, m.aborted, readers, value);
    var placed := ReadPlaced(nodes, m.placed, m.aborted, q.readers);
    hide TopRead; hide LowRead; hide AbortsExactly; hide Uses; hide WriteWork; hide HeadDone; hide NumbersAre;
    hide ReadLevel; hide ReadPlaced; hide Heads; hide TxOf; hide Buckets; hide Frees; hide Movers; hide HeadWork;
    hide Floor; hide Complete; hide Ascending;
    HeadNumbers(nodes, q, m, top, value);
    WriteNumbers(nodes, readers, m'.aborted, q.writers, same, top, level, placed, keys);
  }

  lemma WriteNumbers(nodes: seq<Node>, readers: set<nat>, aborted: seq<bool>, writers: seq<nat>, same: seq<nat>,
      top: int, level: seq<int>, placed: seq<bool>, keys: seq<int>)
    requires OnePerTx(nodes, writers) && Ascending(keys)
    requires HeadDone(nodes, readers, same, top, level, placed, HeadWork(nodes, same, top, level, placed))
    ensures var bySeq := Buckets(nodes, readers, level, aborted, writers, keys);
      var z := WriteWork(nodes, aborted, writers, same, top, bySeq, keys, level, placed);
      var frees := Frees(nodes, aborted, level, writers, |writers|);
      var movers := Movers(bySeq, keys, Floor(same, top), |keys|);
      NumbersAre(nodes, same, top, level, placed, keys, frees, movers, z.level, z.placed)
  {
    var bySeq := Buckets(nodes, readers, level, aborted, writers, keys);
    var x, floor := HeadWork(nodes, same, top, level, placed), Floor(same, top);
    SameFrees(nodes, aborted, level, x.level, writers, |writers|);
    assert x.ceil == Ceiling(same, top) && Fits(nodes, x);
    hide HeadDone; hide HeadWork; hide Buckets; hide Frees; hide Movers; hide FreeUpTo; hide MoveLists; hide NumbersAre;
    hide FreedInTurn; hide Just; hide NumberedFrom; hide MoverList; hide Ascending; hide GiveAll; hide Fits;
    FreesGetFree(nodes, aborted, writers, keys, x, |writers|);
    var frees := Frees(nodes, aborted, level, writers, |writers|);
    var y := FreeUpTo(nodes, aborted, writers, keys, x, |writers|);
    StillFits(nodes, frees, keys, x, y);
    MoversApart(nodes, readers, level, aborted, writers, bySeq, keys, floor, |keys|);
    assert keys[..|keys|] == keys;
    var movers := Movers(bySeq, keys, floor, |keys|);
    MovesAreGive(nodes, bySeq, keys, floor, Raised(y, keys), |keys|);
    MoversOnce(nodes, readers, level, aborted, keys, movers);
    GivesInTurn(nodes, Raised(y, keys), movers);
    var z := MoveLists(nodes, bySeq, keys, floor, Raised(y, keys), |keys|);
    PhasesGive(nodes, readers, aborted, writers, same, top, level, placed, keys, frees, movers, x, y, z);
  }

  lemma StillFits(nodes: seq<Node>, frees: seq<nat>, keys: seq<int>, x: Work, y: Work)
    requires Fits(nodes, x) && FreedInTurn(nodes, frees, keys, x, y)
    ensures Fits(nodes, Raised(y, keys))
  {
    hide OnePerTx; hide NumberedFree; hide AfterFrees;
  }

  lemma MoversOnce(nodes: seq<Node>, readers: set<nat>, level: seq<int>, aborted: seq<bool>, keys: seq<int>,
      movers: seq<nat>)
    requires MoverList(nodes, readers, level, aborted, keys, movers)
    ensures OnePerTx(nodes, movers)
  {
  }

  /** The first writer of a number above the floor keeps it. */
  lemma FirstKeeps(nodes: seq<Node>, q: Queue, m: Marks, m': Marks, top: int, value: int, keys: seq<int>, s: int)
    requires QueueResult(nodes, q, m, m', top, value, keys) && Complete(nodes, m)
    requires s in keys && s > Floor(Heads(nodes, q, m.aborted), top)
    ensures var list := KeptAt(nodes, TxOf(nodes, q.readers), m.level, m'.aborted, q.writers, |q.writers|, s);
      && list != [] && list[0] < |nodes| && nodes[list[0]].tx < |m'.level|
      && m'.level[nodes[list[0]].tx] == m.level[nodes[list[0]].tx] == s
  {
    var readers, floor := TxOf(nodes, q.readers), Floor(Heads(nodes, q, m.aborted), top);
    var level := ReadLevel(m.level, m.aborted, readers, value);
    var list := KeptAt(nodes, readers, level, m'.aborted, q.writers, |q.writers|, s);
    KeptBefore(nodes, readers, m.level, m.aborted, m'.aborted, value, q.writers, |q.writers|, s);
    KeptApart(nodes, readers, level, m'.aborted, q.writers, |q.writers|, s);
    assert list != [] && list[0] in list;
    QueueNumbers(nodes, q, m, m', top, value, keys);
    hide QueueResult; hide Complete; hide KeptAt; hide NumbersAre;
    var t := nodes[list[0]].tx;
    assert t !in readers && level[t] == m.level[t] == s > 0;
    FirstStays(nodes, readers, level, m'.aborted, q.writers, keys, floor, |keys|, s, list[0]);
    FreesHadNone(nodes, m'.aborted, level, q.writers, t);
    HeadReads(nodes, q, m);
    RestStays(nodes, Heads(nodes, q, m.aborted), top, level, ReadPlaced(nodes, m.placed, m.aborted, q.readers), keys,
      FreeWriters(nodes, q, m, m', value), MovedWriters(nodes, q, m, m', top, value, keys), m', t);
  }

  lemma RestStays(nodes: seq<Node>, same: seq<nat>, top: int, level: seq<int>, placed: seq<bool>, keys: seq<int>,
      frees: seq<nat>, movers: seq<nat>, m': Marks, t: nat)
    requires NumbersAre(nodes, same, top, level, placed, keys, frees, movers, m'.level, m'.placed)
    requires t < |level| && t != Head(nodes, same) && Untouched(nodes, frees, t) && Untouched(nodes, movers, t)
    ensures |m'.level| == |level| && m'.level[t] == level[t]
  {
    hide Untouched; hide NumberedFree; hide NumberedFrom;
  }

  lemma FreesHadNone(nodes: seq<Node>, aborted: seq<bool>, level: seq<int>, writers: seq<nat>, t: nat)
    requires t < |level| && level[t] != 0
    ensures Untouched(nodes, Frees(nodes, aborted, level, writers, |writers|), t)
  {
    var frees := Frees(nodes, aborted, level, writers, |writers|);
    hide Frees;
    forall j | 0 <= j < |frees|
      ensures Unplaced(nodes, aborted, level, frees[j])
    {
      FreesIn(nodes, aborted, level, writers, |writers|, frees[j]);
    }
  }

  lemma HeadReads(nodes: seq<Node>, q: Queue, m: Marks)
    requires QueueOf(nodes, q)
    ensures var t := Head(nodes, Heads(nodes, q, m.aborted)); t >= 0 ==> t in TxOf(nodes, q.readers)
  {
    var same := Heads(nodes, q, m.aborted);
    if same != [] {
      BothHas(nodes, TxOf(nodes, q.readers), m.aborted, q.writers, |q.writers|, same[0]);
    }
  }

  /** Numbering the reads does not touch the writers that do not read. */
  lemma {:induction false} KeptBefore(nodes: seq<Node>, readers: set<nat>, level: seq<int>, aborted: seq<bool>,
      aborted': seq<bool>, value: int, writers: seq<nat>, n: nat, s: int)
    requires n <= |writers|
    ensures KeptAt(nodes, readers, ReadLevel(level, aborted, readers, value), aborted', writers, n, s)
      == KeptAt(nodes, readers, level, aborted', writers, n, s)
  {
    if n > 0 {
      KeptBefore(nodes, readers, level, aborted, aborted', value, writers, n - 1, s);
    }
  }

  lemma {:induction false} FirstStays(nodes: seq<Node>, readers: set<nat>, level: seq<int>, aborted: seq<bool>,
      writers: seq<nat>, keys: seq<int>, floor: int, p: nat, s: int, first: nat)
    requires p <= |keys| && OnePerTx(nodes, writers) && s > floor && first < |nodes|
    requires KeptAt(nodes, readers, level, aborted, writers, |writers|, s) != []
    requires KeptAt(nodes, readers, level, aborted, writers, |writers|, s)[0] == first
    ensures var bySeq := Buckets(nodes, readers, level, aborted, writers, keys);
      Untouched(nodes, Movers(bySeq, keys, floor, p), nodes[first].tx)
  {
    hide Buckets; hide KeptAt; hide ListAt; hide OnePerTx; hide Leavers;
    if p > 0 {
      FirstStays(nodes, readers, level, aborted, writers, keys, floor, p - 1, s, first);
      BucketOf(nodes, readers, level, aborted, writers, keys, p - 1);
      FirstInOne(nodes, readers, level, aborted, writers, floor, keys[p - 1], s, first);
    }
  }

  lemma FirstInOne(nodes: seq<Node>, readers: set<nat>, level: seq<int>, aborted: seq<bool>, writers: seq<nat>,
      floor: int, r: int, s: int, first: nat)
    requires OnePerTx(nodes, writers) && s > floor && first < |nodes|
    requires KeptAt(nodes, readers, level, aborted, writers, |writers|, s) != []
    requires KeptAt(nodes, readers, level, aborted, writers, |writers|, s)[0] == first
    ensures var list := KeptAt(nodes, readers, level, aborted, writers, |writers|, r);
      Untouched(nodes, Leavers(list, r > floor), nodes[first].tx)
  {
    var list := KeptAt(nodes, readers, level, aborted, writers, |writers|, r);
    KeptApart(nodes, readers, level, aborted, writers, |writers|, r);
    KeptApart(nodes, readers, level, aborted, writers, |writers|, s);
    assert first in KeptAt(nodes, readers, level, aborted, writers, |writers|, s);
    hide KeptAt;
    var more := Leavers(list, r > floor);
    forall j | 0 <= j < |more|
      ensures more[j] < |nodes| && nodes[more[j]].tx != nodes[first].tx
    {
      if r == s {
        assert more[j] == list[j + 1];
      } else {
        assert more[j] in list;
      }
    }
  }

  // ---- Equal marks before, equal marks after ----

  lemma {:induction false} SameKeys(keys: seq<int>, keys': seq<int>)
    requires Ascending(keys) && Ascending(keys') && forall s :: s in keys <==> s in keys'
    ensures keys == keys'
  {
    assert |keys'| > 0 ==> keys'[0] in keys';
    if keys != [] {
      assert keys[0] in keys' && keys'[0] in keys by {
        assert keys[0] in keys;
        assert keys' != [];
      }
      assert keys[0] == keys'[0];
      forall s
        ensures s in keys[1..] <==> s in keys'[1..]
      {
        assert s in keys[1..] <==> s in keys && s != keys[0];
        assert s in keys'[1..] <==> s in keys' && s != keys'[0];
      }
      SameKeys(keys[1..], keys'[1..]);
      assert keys == [keys[0]] + keys[1..] && keys' == [keys'[0]] + keys'[1..];
    }
  }

  lemma SameReads(level: seq<int>, aborted: seq<bool>, readers: set<nat>, top: int, top': int, value: int, value': int)
    requires |level| == |aborted|
    requires TopRead(level, aborted, readers, top) && TopRead(level, aborted, readers, top')
    requires LowRead(level, aborted, readers, value) && LowRead(level, aborted, readers, value')
    ensures top == top' && value == value'
  {
  }

  lemma SameAborts(nodes: seq<Node>, q: Queue, m: Marks, top: int, aborted: seq<bool>, aborted': seq<bool>)
    requires QueueOf(nodes, q)
    requires AbortsExactly(nodes, q, m.level, m.placed, m.aborted, aborted, top)
    requires AbortsExactly(nodes, q, m.level, m.placed, m.aborted, aborted', top)
    ensures aborted == aborted'
  {
    hide Loses;
  }

  /** Sorting a queue is a function of the marks it finds. */
  lemma StepDecides(nodes: seq<Node>, q: Queue, m: Marks, m1: Marks, m2: Marks)
    requires SortStep(nodes, q, m, m1) && SortStep(nodes, q, m, m2)
    ensures m1 == m2
  {
    hide Decided; hide QueueResult;
    var top1, value1, keys1 :| Decided(nodes, q, m, m1, top1) && QueueResult(nodes, q, m, m1, top1, value1, keys1);
    var top2, value2, keys2 :| Decided(nodes, q, m, m2, top2) && QueueResult(nodes, q, m, m2, top2, value2, keys2);
    SameResult(nodes, q, m, m1, m2, top1, value1, keys1, top2, value2, keys2);
  }

  lemma SameResult(nodes: seq<Node>, q: Queue, m: Marks, m1: Marks, m2: Marks, top1: int, value1: int, keys1: seq<int>,
      top2: int, value2: int, keys2: seq<int>)
    requires QueueResult(nodes, q, m, m1, top1, value1, keys1) && QueueResult(nodes, q, m, m2, top2, value2, keys2)
    ensures m1 == m2
  {
    hide TopRead; hide LowRead; hide AbortsExactly; hide WriteWork; hide ReadLevel; hide ReadPlaced; hide Buckets;
    hide Heads; hide Ascending; hide TxOf; hide KeptAt;
    assert QueueOf(nodes, q);
    SameReads(m.level, m.aborted, TxOf(nodes, q.readers), top1, top2, value1, value2);
    SameAborts(nodes, q, m, top1, m1.aborted, m2.aborted);
    SameKeys(keys1, keys2);
  }

  /** So is sorting all queues in a given order. */
  lemma RunDecides(nodes: seq<Node>, order: seq<Queue>, trace1: seq<Marks>, trace2: seq<Marks>)
    requires Traced(nodes, order, trace1) && Traced(nodes, order, trace2) && trace1[0] == trace2[0]
    ensures trace1 == trace2
  {
    hide StepAt;
    forall p: nat | p <= |order|
      ensures trace1[p] == trace2[p]
    {
      SameUpTo(nodes, order, trace1, trace2, p);
    }
  }

  lemma {:induction false} SameUpTo(nodes: seq<Node>, order: seq<Queue>, trace1: seq<Marks>, trace2: seq<Marks>,
      p: nat)
    requires Traced(nodes, order, trace1) && Traced(nodes, order, trace2) && trace1[0] == trace2[0] && p <= |order|
    ensures trace1[p] == trace2[p]
  {
    hide SortStep;
    if p > 0 {
      SameUpTo(nodes, order, trace1, trace2, p - 1);
      assert StepAt(nodes, order, trace1, p - 1) && StepAt(nodes, order, trace2, p - 1);
      StepDecides(nodes, order[p - 1], trace1[p - 1], trace1[p], trace2[p]);
    }
  }
}
