/** Nezha's in-queue sorting (DeSS): for one state address, sequence numbers are given to the
    transactions that read or write it. Nodes of one transaction are shared between queues
    and always carry one sequence number. */
module NezhaSort {

  import T = Transactions

  type Address = T.Key

  /** One access of one transaction; nodes are named by their position in a table. */
  datatype Node = Node(tx: nat, key: Address, write: bool)

  datatype Queue = Queue(key: Address, readers: seq<nat>, writers: seq<nat>)

  const INITIAL: int := 10

  /** Each node belongs to a transaction, whose nodes are listed in `own`. */
  ghost predicate Tables(nodes: seq<Node>, own: seq<seq<nat>>) {
    && (forall n :: 0 <= n < |nodes| ==> nodes[n].tx < |own|)
    && (forall t: nat :: t < |own| ==> Lists(nodes, own[t], t))
  }

  ghost predicate Lists(nodes: seq<Node>, mine: seq<nat>, t: nat) {
    && (forall p :: 0 <= p < |mine| ==> mine[p] < |nodes| && nodes[mine[p]].tx == t)
    && (forall n: nat :: n < |nodes| && nodes[n].tx == t ==> n in mine)
  }

  ghost function TxOf(nodes: seq<Node>, ids: seq<nat>): set<nat>
    requires forall n :: n in ids ==> n < |nodes|
  {
    set n | n in ids :: nodes[n].tx
  }

  /** The queue lists the read and write nodes of its address, one of each per transaction. */
  ghost predicate QueueOf(nodes: seq<Node>, q: Queue) {
    && (forall n: nat :: n in q.readers <==> n < |nodes| && nodes[n].key == q.key && !nodes[n].write)
    && (forall n: nat :: n in q.writers <==> n < |nodes| && nodes[n].key == q.key && nodes[n].write)
    && OnePerTx(nodes, q.readers) && OnePerTx(nodes, q.writers)
  }

  ghost predicate OnePerTx(nodes: seq<Node>, ids: seq<nat>) {
    && (forall p :: 0 <= p < |ids| ==> ids[p] < |nodes|)
    && (forall p, r :: 0 <= p < r < |ids| ==> nodes[ids[p]].tx != nodes[ids[r]].tx)
  }

  /** All nodes of a transaction carry its level. */
  ghost predicate Uniform(nodes: seq<Node>, sequence: seq<int>, level: seq<int>) {
    && |sequence| == |nodes|
    && (forall n :: 0 <= n < |nodes| ==> nodes[n].tx < |level| && sequence[n] == level[nodes[n].tx])
    && (forall t :: 0 <= t < |level| ==> level[t] >= 0)
  }

  // ---- What sorting one queue must achieve ----

  ghost predicate Live(aborted: seq<bool>, t: nat) {
    t < |aborted| && !aborted[t]
  }

  /** Among live transactions on the address, writers have distinct positive levels, each
      above every other transaction that reads the address. */
  ghost predicate QueueSorted(level: seq<int>, aborted: seq<bool>, readers: set<nat>, writers: set<nat>)
    requires |aborted| == |level|
  {
    && (forall t, u ::
      t in writers && u in writers && t != u && Live(aborted, t) && Live(aborted, u) ==> level[t] != level[u])
    && (forall t, u ::
      t in writers && u in readers && t != u && Live(aborted, t) && Live(aborted, u) ==> level[t] > level[u])
    && (forall t :: (t in readers || t in writers) && Live(aborted, t) ==> level[t] > 0)
  }

  /** After the reads were numbered: every live reader has a level between one and `top`, and
      only live readers without a number have changed. */
  ghost predicate ReadsNumbered(before: seq<int>, level: seq<int>, aborted: seq<bool>, readers: set<nat>, top: int)
    requires |aborted| == |level|
  {
    && |before| == |level| && top >= 0
    && (forall t :: t in readers && Live(aborted, t) ==> 1 <= level[t] <= top)
    && (forall t: nat :: t < |level| && level[t] != before[t] ==> before[t] == 0 && t in readers && Live(aborted, t))
    && (top == 0 <==> forall t :: t in readers ==> !Live(aborted, t))
  }

  const HIGHEST: int := 0x4000_0000

  ghost predicate Numbered(level: seq<int>, aborted: seq<bool>, t: nat) {
    t < |level| && Live(aborted, t) && level[t] != 0
  }

  /** The highest read: that of the numbered live readers, or the initial number if there are
      only unnumbered ones, or zero if there are none. */
  ghost predicate TopRead(level: seq<int>, aborted: seq<bool>, readers: set<nat>, top: int)
    requires |aborted| == |level|
  {
    && (forall t :: t in readers && Numbered(level, aborted, t) ==> level[t] <= top)
    && ((exists t :: t in readers && Numbered(level, aborted, t)) ==> exists t ::
      t in readers && Numbered(level, aborted, t) && level[t] == top)
    && ((forall t :: t in readers ==> !Numbered(level, aborted, t)) ==> top == if exists t ::
      t in readers && Live(aborted, t) then INITIAL else 0)
  }

  /** Readers without a number get the lowest number of the others, or the initial one. */
  ghost predicate ReadValue(before: seq<int>, level: seq<int>, aborted: seq<bool>, readers: set<nat>, value: int)
    requires |aborted| == |level| == |before|
  {
    && (forall t :: t in readers && Live(aborted, t) && before[t] == 0 ==> level[t] == value)
    && LowRead(before, aborted, readers, value)
  }

  /** The lowest number of the numbered live readers, at most `HIGHEST`, or the initial number if
      there are none. */
  ghost predicate LowRead(level: seq<int>, aborted: seq<bool>, readers: set<nat>, value: int) {
    && (forall t :: t in readers && Numbered(level, aborted, t) ==> value <= level[t])
    && ((exists t :: t in readers && Numbered(level, aborted, t)) ==>
      && value <= HIGHEST
      && (value == HIGHEST || exists t :: t in readers && Numbered(level, aborted, t) && level[t] == value))
    && ((forall t :: t in readers ==> !Numbered(level, aborted, t)) ==> value == INITIAL)
  }

  // ---- The exact numbers ----

  /** Numbers, placed nodes and the highest number in use, while a queue's writers are numbered. */
  datatype Work = Work(level: seq<int>, placed: seq<bool>, ceil: int)

  ghost predicate At(x: Work, level: seq<int>, placed: seq<bool>, ceil: int) {
    x == Work(level, placed, ceil)
  }

  ghost predicate Gives(x: Work, level: seq<int>, placed: seq<bool>) {
    x.level == level && x.placed == placed
  }

  /** The transaction of node `w` gets the number `v`, which becomes the highest in use. */
  ghost function Give(nodes: seq<Node>, x: Work, w: nat, v: int): Work {
    if w < |nodes| && nodes[w].tx < |x.level| && w < |x.placed| then
      Work(x.level[nodes[w].tx := v], x.placed[w := true], v)
    else x
  }

  /** The least number above `c` that is not among `keys`. */
  ghost predicate IsLeastFree(keys: seq<int>, c: int, v: int) {
    v > c && v !in keys && forall u :: c < u < v ==> u in keys
  }

  lemma {:induction false} SomeBound(keys: seq<int>) returns (bound: int)
    ensures forall k :: k in keys ==> k <= bound
  {
    if keys == [] {
      bound := 0;
    } else {
      bound := SomeBound(keys[1..]);
      assert forall k :: k in keys ==> k == keys[0] || k in keys[1..];
      bound := if bound < keys[0] then keys[0] else bound;
    }
  }

  lemma {:induction false} FreeBelow(keys: seq<int>, c: int, bound: int)
    requires forall k :: k in keys ==> k <= bound
    ensures exists v :: IsLeastFree(keys, c, v)
    decreases bound - c
  {
    if c + 1 !in keys {
      assert IsLeastFree(keys, c, c + 1);
    } else {
      FreeBelow(keys, c + 1, bound);
      var v :| IsLeastFree(keys, c + 1, v);
      assert IsLeastFree(keys, c, v);
    }
  }

  lemma FreeExists(keys: seq<int>, c: int)
    ensures exists v :: IsLeastFree(keys, c, v)
  {
    var bound := SomeBound(keys);
    FreeBelow(keys, c, bound);
  }

  ghost function LeastFree(keys: seq<int>, c: int): (v: int)
    ensures IsLeastFree(keys, c, v)
  {
    FreeExists(keys, c);
    var v :| IsLeastFree(keys, c, v);
    v
  }

  lemma LeastFreeIs(keys: seq<int>, c: int, v: int)
    requires IsLeastFree(keys, c, v)
    ensures LeastFree(keys, c) == v
  {
    var w := LeastFree(keys, c);
    assert c < w < v ==> w in keys;
    assert c < v < w ==> v in keys;
  }

  /** A live writer without a number. */
  ghost predicate Unplaced(nodes: seq<Node>, aborted: seq<bool>, level: seq<int>, w: nat) {
    w < |nodes| && nodes[w].tx < |level| && level[nodes[w].tx] == 0 && Live(aborted, nodes[w].tx)
  }

  /** The first `n` writers of a list: each unnumbered live one gets the least free number. */
  ghost function FreeUpTo(nodes: seq<Node>, aborted: seq<bool>, writers: seq<nat>, keys: seq<int>, x: Work, n: nat):
      Work
    requires n <= |writers|
  {
    if n == 0 then x
    else
      var y := FreeUpTo(nodes, aborted, writers, keys, x, n - 1);
      if Unplaced(nodes, aborted, y.level, writers[n - 1]) then
        Give(nodes, y, writers[n - 1], LeastFree(keys, y.ceil))
      else y
  }

  ghost function MovedOn(nodes: seq<Node>, x: Work, w: nat, keep: bool): Work {
    if keep then x else Give(nodes, x, w, x.ceil + 1)
  }

  /** The first `i` writers of one number: the very first stays if the number is above the floor,
      the others move on to the next number. */
  ghost function MoveUpTo(nodes: seq<Node>, list: seq<nat>, raw: int, floor: int, x: Work, i: nat): Work
    requires i <= |list|
  {
    if i == 0 then x
    else
      MovedOn(nodes, MoveUpTo(nodes, list, raw, floor, x, i - 1), list[i - 1], raw > floor && i == 1)
  }

  /** The same for the lists of the first `p` numbers. */
  ghost function MoveLists(nodes: seq<Node>, bySeq: map<int, seq<nat>>, keys: seq<int>, floor: int, x: Work, p: nat):
      Work
    requires p <= |keys|
  {
    if p == 0 then x
    else
      var list := ListAt(bySeq, keys[p - 1]);
      MoveUpTo(nodes, list, keys[p - 1], floor, MoveLists(nodes, bySeq, keys, floor, x, p - 1), |list|)
  }

  /** New numbers for numbered writers start above all of theirs. */
  ghost function Raised(x: Work, keys: seq<int>): Work {
    if |keys| > 0 && x.ceil < keys[|keys| - 1] then x.(ceil := keys[|keys| - 1]) else x
  }

  /** The head, if there is one, gets the number after the highest read. */
  ghost function HeadWork(nodes: seq<Node>, same: seq<nat>, top: int, level: seq<int>, placed: seq<bool>): Work {
    var x := Work(level, placed, if top == 0 then INITIAL - 1 else top);
    if same == [] then x else Give(nodes, x, same[0], x.ceil + 1)
  }

  /** Everything after the reads. */
  ghost function WriteWork(nodes: seq<Node>, aborted: seq<bool>, writers: seq<nat>, same: seq<nat>, top: int,
      bySeq: map<int, seq<nat>>, keys: seq<int>, level: seq<int>, placed: seq<bool>): Work
  {
    var x := HeadWork(nodes, same, top, level, placed);
    var y := FreeUpTo(nodes, aborted, writers, keys, x, |writers|);
    MoveLists(nodes, bySeq, keys, if same == [] then top else x.ceil, Raised(y, keys), |keys|)
  }

  /** Live readers without a number get `value`. */
  ghost function ReadLevel(level: seq<int>, aborted: seq<bool>, readers: set<nat>, value: int): seq<int> {
    seq(|level|, t requires 0 <= t < |level| =>
      if t in readers && Live(aborted, t) && level[t] == 0 then value else level[t])
  }

  /** The read nodes of live transactions are placed. */
  ghost function ReadPlaced(nodes: seq<Node>, placed: seq<bool>, aborted: seq<bool>, ids: seq<nat>): seq<bool> {
    seq(|placed|, n requires 0 <= n < |placed| =>
      placed[n] || (n in ids && n < |nodes| && Live(aborted, nodes[n].tx)))
  }

  /** Of the first `n` writers, in order, the live ones of number `s` that do not read the address. */
  ghost function KeptAt(nodes: seq<Node>, readers: set<nat>, level: seq<int>, aborted: seq<bool>, writers: seq<nat>,
      n: nat, s: int): seq<nat>
    requires n <= |writers|
  {
    if n == 0 then []
    else
      var before := KeptAt(nodes, readers, level, aborted, writers, n - 1, s);
      if KeptWith(nodes, readers, level, aborted, writers[n - 1], s) then before + [writers[n - 1]] else before
  }

  ghost predicate KeptWith(nodes: seq<Node>, readers: set<nat>, level: seq<int>, aborted: seq<bool>, w: nat, s: int) {
    w < |nodes| && nodes[w].tx < |level| && nodes[w].tx !in readers && Live(aborted, nodes[w].tx)
      && level[nodes[w].tx] == s > 0
  }

  /** The lists by number have exactly these. */
  ghost predicate Bucketed(nodes: seq<Node>, readers: set<nat>, level: seq<int>, aborted: seq<bool>, writers: seq<nat>,
      n: nat, bySeq: map<int, seq<nat>>) {
    n <= |writers| && forall s :: ListAt(bySeq, s) == KeptAt(nodes, readers, level, aborted, writers, n, s)
  }

  class Sorter {
    const nodes: seq<Node>
    const own: seq<seq<nat>>
    var sequence: seq<int>
    var placed: seq<bool>
    var aborted: seq<bool>
    ghost var level: seq<int>

    ghost predicate Valid()
      reads this
    {
      && Tables(nodes, own) && |own| == |aborted| == |level| && |placed| == |nodes|
      && Uniform(nodes, sequence, level)
    }

    /** Transactions without accesses start with the initial number, all others with none. */
    constructor (nodes: seq<Node>, own: seq<seq<nat>>, idle: set<nat>)
      requires Tables(nodes, own)
      ensures Valid() && this.nodes == nodes && this.own == own && Below(level, INITIAL)
      ensures forall t :: 0 <= t < |own| ==> !aborted[t] && level[t] == (if t in idle then INITIAL else 0)
      ensures forall n :: 0 <= n < |nodes| ==> (placed[n] <==> nodes[n].tx in idle)
    {
      this.nodes, this.own := nodes, own;
      sequence := seq(|nodes|, n requires 0 <= n < |nodes| => if nodes[n].tx in idle then INITIAL else 0);
      placed := seq(|nodes|, n requires 0 <= n < |nodes| => nodes[n].tx in idle);
      aborted := seq(|own|, t => false);
      level := seq(|own|, t => if t in idle then INITIAL else 0);
    }

    /** Sets one node and then, by `nezhaAssignSequence`, every node of its transaction. */
    method Assign(node: nat, value: int)
      requires Valid() && node < |nodes| && value >= 0
      modifies `sequence, `placed, `level
      ensures Valid() && level == old(level)[nodes[node].tx := value] && placed == old(placed)[node := true]
    {
      var t := nodes[node].tx;
      var mine := own[t];
      assert Lists(nodes, mine, t);
      sequence := sequence[node := value];
      placed := placed[node := true];
      for p := 0 to |mine|
        invariant |sequence| == |nodes| && placed == old(placed)[node := true] && level == old(level)
        invariant forall n :: 0 <= n < |nodes| && nodes[n].tx != t ==> sequence[n] == old(sequence)[n]
        invariant forall r :: 0 <= r < p ==> mine[r] < |nodes| && sequence[mine[r]] == value
      {
        sequence := sequence[mine[p] := value];
      }
      forall n | 0 <= n < |nodes| && nodes[n].tx == t
        ensures sequence[n] == value
      {
        assert n in mine;
      }
      level := level[t := value];
    }

    /** Numbers every live reader that has no number yet. When nobody has one, the guard on the
        number is idle and this is the first loop of `nezhaSortInQueue`, otherwise the third. */
    method NumberRest(ids: seq<nat>, value: int) returns (any: bool)
      requires Valid() && OnePerTx(nodes, ids) && value > 0
      modifies `sequence, `placed, `level
      ensures Valid() && Filled(nodes, ids, aborted, old(level), level, value)
      ensures PlacedSome(nodes, ids, aborted, old(level), old(placed), placed)
      ensures any <==> Unnumbered(nodes, ids, aborted, old(level))
    {
      any := false;
      assert Filled(nodes, ids[..0], aborted, level, level, value)
        && PlacedSome(nodes, ids[..0], aborted, level, placed, placed);
      hide Filled; hide PlacedSome; hide Tables; hide Lists;
      for p := 0 to |ids|
        invariant Valid() && aborted == old(aborted)
        invariant Filled(nodes, ids[..p], aborted, old(level), level, value)
        invariant PlacedSome(nodes, ids[..p], aborted, old(level), old(placed), placed)
        invariant any <==> Unnumbered(nodes, ids[..p], aborted, old(level))
      {
        var n := ids[p];
        assert ids[..p + 1] == ids[..p] + [n];
        assert Next(nodes, ids[..p], n);
        FillOne(nodes, ids[..p], aborted, old(level), level, value, n);
        PlaceOne(nodes, ids[..p], aborted, old(level), old(placed), placed, n);
        if sequence[n] == 0 && !aborted[nodes[n].tx] {
          Assign(n, value);
          any := true;
        }
      }
      assert ids[..|ids|] == ids;
    }

    /** The already numbered live readers, their lowest and highest number. */
    method Extremes(ids: seq<nat>) returns (low: int, top: int, any: bool)
      requires Valid() && OnePerTx(nodes, ids)
      modifies `placed
      ensures Valid() && Extreme(nodes, ids, |ids|, level, aborted, low, top, any)
      ensures PlacedNumbered(nodes, ids, |ids|, level, aborted, old(placed), placed)
    {
      hide Tables; hide Lists; hide Uniform; hide Extreme; hide PlacedNumbered; hide Numbered; hide Lower; hide Higher;
      hide OnePerTx;
      low, top, any := HIGHEST, 0, false;
      NothingPlaced(nodes, ids, level, aborted, placed);
      for p := 0 to |ids|
        invariant |placed| == |nodes|
        invariant Extreme(nodes, ids, p, level, aborted, low, top, any)
        invariant PlacedNumbered(nodes, ids, p, level, aborted, old(placed), placed)
      {
        var n := ids[p];
        InNodes(nodes, ids, p);
        NumberOf(nodes, sequence, level, n);
        var v := sequence[n];
        ExtremeNext(nodes, ids, p, level, aborted, low, top, any, v);
        PlacedNext(nodes, ids, p, level, aborted, old(placed), placed);
        if v != 0 && !aborted[nodes[n].tx] {
          low, top, any := Lower(v, low), Higher(v, top), true;
          placed := placed[n := true];
        }
      }
    }

    /** The read half of `nezhaSortInQueue`. */
    method NumberReads(q: Queue) returns (top: int, ghost value: int)
      requires Valid() && QueueOf(nodes, q)
      modifies `sequence, `placed, `level
      ensures Valid() && ReadsNumbered(old(level), level, aborted, TxOf(nodes, q.readers), top)
      ensures TopRead(old(level), aborted, TxOf(nodes, q.readers), top)
      ensures ReadValue(old(level), level, aborted, TxOf(nodes, q.readers), value)
      ensures PlacedAll(nodes, q.readers, aborted, old(placed), placed)
      ensures level == ReadLevel(old(level), aborted, TxOf(nodes, q.readers), value)
      ensures placed == ReadPlaced(nodes, old(placed), aborted, q.readers)
    {
      var low, highest, any := Extremes(q.readers);
      ghost var mid := placed;
      value := if any then low else INITIAL;
      ReadsToNumber(nodes, q.readers, level, aborted, low, highest, any);
      var started := NumberRest(q.readers, if any then low else INITIAL);
      top := if any then highest else if started then INITIAL else 0;
      hide *;
      AllPlaced(nodes, q.readers, old(level), aborted, old(placed), mid, placed);
      ReadsDone(nodes, q.readers, old(level), level, aborted, low, highest, any, started);
      ReadExactly(nodes, q.readers, old(level), level, aborted, old(placed), placed, top, value);
    }

    /** Whether a transaction has a placed read of `key`, or else of some other address. */
    method PlacedRead(t: nat, key: Address) returns (same: bool, before: bool)
      requires Valid() && t < |own|
      ensures same
        <==> exists n :: 0 <= n < |nodes| && nodes[n].tx == t && !nodes[n].write && placed[n] && nodes[n].key == key
      ensures !same ==> (before <==> exists n :: 0 <= n < |nodes| && nodes[n].tx == t && !nodes[n].write && placed[n])
    {
      same, before := false, false;
      var mine := own[t];
      assert Lists(nodes, mine, t);
      for p := 0 to |mine|
        invariant forall r :: 0 <= r < p ==> !(!nodes[mine[r]].write && placed[mine[r]] && nodes[mine[r]].key == key)
        invariant before <==> exists r :: 0 <= r < p && !nodes[mine[r]].write && placed[mine[r]]
      {
        if !nodes[mine[p]].write && placed[mine[p]] {
          if nodes[mine[p]].key == key {
            return true, before;
          }
          before := true;
        }
      }
    }

    /** Sorts the live numbered writers of a queue into those that also read the address, those
        kept by number, and those aborted because another of their reads is already placed. */
    method Classify(q: Queue, top: int) returns (same: seq<nat>, bySeq: map<int, seq<nat>>)
      requires Valid() && QueueOf(nodes, q)
      requires forall n :: n in q.readers && Live(aborted, nodes[n].tx) ==> placed[n] && 1 <= level[nodes[n].tx] <= top
      modifies `aborted
      ensures Valid() && Classified(nodes, level, aborted, TxOf(nodes, q.readers), q.writers, same, bySeq)
      ensures AbortsWriters(nodes, level, placed, top, old(aborted), aborted, TxOf(nodes, q.readers), q.writers)
      ensures same == Both(nodes, TxOf(nodes, q.readers), old(aborted), q.writers, |q.writers|)
      ensures Bucketed(nodes, TxOf(nodes, q.readers), level, aborted, q.writers, |q.writers|, bySeq)
    {
      hide Bucketed;
      hide Sifted; hide IsFate; hide ListAt; hide Classified; hide AbortsWriters; hide Both;
      same, bySeq := [], map[];
      NothingSifted(nodes, q, level, placed, top, aborted);
      NoneNegative(nodes, sequence, level);
      ghost var readers := TxOf(nodes, q.readers);
      NothingBucketed(nodes, readers, level, aborted, q.writers);
      hide Tables; hide Lists; hide Uniform; hide QueueOf; hide Live;
      for p := 0 to |q.writers|
        invariant |aborted| == |level| && Sifted(nodes, q, level, placed, top, old(aborted), aborted, p, same, bySeq)
        invariant Bucketed(nodes, readers, level, aborted, q.writers, p, bySeq)
      {
        var fate := Judge(q, p, top, old(aborted), same, bySeq);
        NumberOf(nodes, sequence, level, q.writers[p]);
        BucketNext(nodes, q, level, placed, top, aborted, p, bySeq, fate);
        SiftNext(nodes, q, level, placed, top, old(aborted), aborted, p, same, bySeq, fate);
        var w := q.writers[p];
        match fate
        case Skip =>
        case ReadsToo => same := same + [w];
        case Abort => aborted := aborted[nodes[w].tx := true];
        case Keep => bySeq := bySeq[sequence[w] := ListAt(bySeq, sequence[w]) + [w]];
      }
      AllSifted(nodes, q, level, placed, top, old(aborted), aborted, same, bySeq);
    }

    /** What becomes of one writer. */
    method Judge(q: Queue, p: nat, top: int, ghost before: seq<bool>, ghost same: seq<nat>,
        ghost bySeq: map<int, seq<nat>>) returns (fate: Fate)
      requires Valid() && QueueOf(nodes, q) && p < |q.writers|
      requires Sifted(nodes, q, level, placed, top, before, aborted, p, same, bySeq)
      requires forall n :: n in q.readers && Live(before, nodes[n].tx) ==> placed[n] && 1 <= level[nodes[n].tx] <= top
      ensures q.writers[p] < |nodes| && IsFate(nodes, q, level, placed, top, aborted, q.writers[p], fate)
    {
      var w := q.writers[p];
      var t := nodes[w].tx;
      if sequence[w] == 0 || aborted[t] {
        return Skip;
      }
      hide Tables; hide Lists; hide Classified; hide Late; hide AbortsWriters;
      StillPlaced(nodes, q, placed, before, aborted, q.writers[..p], level, top);
      ReaderPlaced(nodes, q, placed, aborted, t);
      ReaderNumbered(nodes, q, level, aborted, top, t);
      var here, earlier := PlacedRead(t, nodes[w].key);
      LateIff(nodes, level, placed, top, t, earlier);
      if sequence[w] <= top {
        if here {
          return ReadsToo;
        } else if earlier {
          return Abort;
        }
        return Keep;
      }
      return Keep;
    }

    /** Of the writers that also read the address, the first gets the number after the highest
        read and the others are aborted. */
    method PlaceHead(same: seq<nat>, top: int) returns (floor: int, ceil: int)
      requires Valid() && OnePerTx(nodes, same) && top >= 0 && (same != [] ==> top > 0)
      modifies `sequence, `placed, `level, `aborted
      ensures Valid() && HeadPlaced(nodes, same, top, old(level), old(aborted), level, aborted, floor, ceil)
      ensures At(HeadWork(nodes, same, top, old(level), old(placed)), level, placed, ceil)
      ensures floor == if same == [] then top else ceil
    {
      floor := top;
      ceil := if top == 0 then INITIAL - 1 else top;
      hide Lists;
      if same != [] {
        ceil := ceil + 1;
        floor := ceil;
        Assign(same[0], ceil);
        hide Tables;
        for p := 1 to |same|
          invariant Valid() && level == old(level)[nodes[same[0]].tx := top + 1]
          invariant placed == old(placed)[same[0] := true]
          invariant aborted[nodes[same[0]].tx] == old(aborted)[nodes[same[0]].tx]
          invariant forall r :: 0 < r < p ==> aborted[nodes[same[r]].tx]
          invariant forall t: nat ::
            t < |aborted| && aborted[t] != old(aborted)[t] ==> aborted[t] && t in TxOf(nodes, same)
        {
          aborted := aborted[nodes[same[p]].tx := true];
          assert same[p] in same;
        }
      }
    }

    /** The open-ended search for the next unused number: it stops, at the first number above
        `ceil` that no kept writer has. */
    method NextFree(keys: seq<int>, ceil: int, ghost bound: int) returns (candidate: int)
      requires forall p :: 0 <= p < |keys| ==> keys[p] <= bound
      ensures candidate > ceil && candidate !in keys && (candidate <= ceil + 1 || candidate <= bound + 1)
      ensures IsLeastFree(keys, ceil, candidate)
    {
      candidate := ceil + 1;
      while candidate in keys
        invariant candidate > ceil && (candidate <= ceil + 1 || candidate <= bound + 1)
        invariant forall v :: ceil < v < candidate ==> v in keys
        decreases bound + 1 - candidate
      {
        candidate := candidate + 1;
      }
    }

    /** Numbers the live writers that have no number, above everything placed so far and beside
        the numbers of the kept writers. */
    method NumberFree(writers: seq<nat>, keys: seq<int>, floor: int, ceil0: int, ghost head: int,
        ghost done0: set<nat>, ghost bound: int)
      returns (ceil: int, ghost done: set<nat>)
      requires Valid() && OnePerTx(nodes, writers) && (forall p :: 0 <= p < |keys| ==> keys[p] <= bound)
      requires Ledger(level, done0, head, floor, ceil0, bound) && Clear(level, done0, keys, floor)
      requires forall n :: n in writers && Live(aborted, nodes[n].tx) && level[nodes[n].tx] == 0 ==>
        nodes[n].tx !in done0 && nodes[n].tx != head
      modifies `sequence, `placed, `level
      ensures Valid() && Ledger(level, done, head, floor, ceil, bound) && Clear(level, done, keys, floor)
      ensures Freed(nodes, aborted, writers, old(level), level, done0, done)
      ensures forall n :: 0 <= n < |nodes| && old(placed)[n] ==> placed[n]
      ensures var x := Work(old(level), old(placed), ceil0);
        At(FreeUpTo(nodes, aborted, writers, keys, x, |writers|), level, placed, ceil)
    {
      hide *;
      ceil, done := ceil0, done0;
      ghost var x := Work(level, placed, ceil0);
      Lengths(this);
      FreedNone(nodes, aborted, level, done0);
      assert writers[..0] == [];
      FreesNone(nodes, aborted, writers, keys, x);
      for p := 0 to |writers|
        invariant Valid() && aborted == old(aborted) && |placed| == |nodes|
        invariant Freed(nodes, aborted, writers[..p], old(level), level, done0, done)
        invariant Ledger(level, done, head, floor, ceil, bound) && Clear(level, done, keys, floor)
        invariant forall n :: 0 <= n < |nodes| && old(placed)[n] ==> placed[n]
        invariant At(FreeUpTo(nodes, aborted, writers, keys, x, p), level, placed, ceil)
      {
        var w := writers[p];
        NextOf(nodes, writers, p);
        NodeIn(this, w);
        var t := nodes[w].tx;
        assert w in writers && writers[..p + 1] == writers[..p] + [w];
        UnplacedIs(nodes, aborted, level, w);
        FreeSkip(nodes, aborted, writers[..p], old(level), level, done0, done, w);
        if sequence[w] == 0 && !aborted[t] {
          var candidate := NextFree(keys, ceil, bound);
          FreesOne(nodes, aborted, writers, keys, x, p, level, placed, ceil, candidate);
          FreeOne(nodes, aborted, writers[..p], old(level), level, done0, done, w, candidate);
          LedgerNew(level, done, head, floor, ceil, bound, keys, t, candidate);
          Assign(w, candidate);
          ceil := candidate;
          done := done + {t};
        } else {
          FreesOther(nodes, aborted, writers, keys, x, p, level, placed, ceil);
        }
      }
      assert writers[..|writers|] == writers;
    }

    /** One kept writer: it keeps its number, or moves on to the next one. */
    method MoveKept(w: nat, keep: bool, floor: int, ceil0: int, ghost rest: seq<int>, ghost head: int,
        ghost done: set<nat>, ghost bound: int)
      returns (ceil: int, ghost v: int)
      requires Valid() && w < |nodes| && nodes[w].tx !in done && nodes[w].tx != head && level[nodes[w].tx] <= ceil0
      requires (forall r :: 0 <= r < |rest| ==> rest[r] <= ceil0)
      requires Ledger(level, done, head, floor, ceil0, bound) && Clear(level, done, rest, floor)
      requires keep
        ==> floor < level[nodes[w].tx] <= ceil0
            && level[nodes[w].tx] !in rest && Clear(level, done, [level[nodes[w].tx]], floor)
      modifies `sequence, `placed, `level
      ensures Valid() && ceil >= ceil0 && level == old(level)[nodes[w].tx := v] && v >= old(level)[nodes[w].tx]
      ensures Ledger(level, done + {nodes[w].tx}, head, floor, ceil, bound)
      ensures Clear(level, done + {nodes[w].tx}, rest, floor)
      ensures At(MovedOn(nodes, Work(old(level), old(placed), ceil0), w, keep), level, placed, ceil)
    {
      hide *;
      NodeIn(this, w);
      ceil, v := ceil0, sequence[w];
      ghost var x := Work(level, placed, ceil0);
      if keep {
        KeepsOn(nodes, x, w);
        LedgerKept(level, done, head, floor, ceil, bound, rest, nodes[w].tx);
      } else {
        LedgerNew(level, done, head, floor, ceil, bound, rest, nodes[w].tx, ceil + 1);
        ceil := ceil + 1;
        v := ceil;
        MovesOn(nodes, x, w);
        Assign(w, ceil);
      }
    }

    /** The kept writers of one number: the first keeps it if it lies above every read, the
        others move to new numbers. */
    method RenumberList(list: seq<nat>, raw: int, floor: int, ceil0: int, ghost rest: seq<int>, ghost head: int,
        ghost done0: set<nat>, ghost bound: int)
      returns (ceil: int, ghost done: set<nat>)
      requires Valid() && Waiting(nodes, list, level, done0, head, raw)
      requires Ledger(level, done0, head, floor, ceil0, bound) && Clear(level, done0, rest, floor)
      requires Clear(level, done0, [raw], floor)
      requires raw !in rest && raw <= ceil0 && forall r :: 0 <= r < |rest| ==> rest[r] <= ceil0
      modifies `sequence, `placed, `level
      ensures Valid() && ceil >= ceil0 && Ledger(level, done, head, floor, ceil, bound)
      ensures Clear(level, done, rest, floor)
      ensures Moved(nodes, list, |list|, old(level), level, done0, done)
      ensures var x := Work(old(level), old(placed), ceil0);
        At(MoveUpTo(nodes, list, raw, floor, x, |list|), level, placed, ceil)
    {
      ceil, done := ceil0, done0;
      ghost var x := Work(level, placed, ceil0);
      assert Moved(nodes, list, 0, level, level, done0, done0);
      MovesNone(nodes, list, raw, floor, x);
      ghost var v := 0;
      hide *;
      for i := 0 to |list|
        invariant Valid() && ceil >= ceil0 && Ledger(level, done, head, floor, ceil, bound)
        invariant Clear(level, done, rest, floor) && (i == 0 ==> Clear(level, done, [raw], floor))
        invariant Moved(nodes, list, i, old(level), level, done0, done)
        invariant At(MoveUpTo(nodes, list, raw, floor, x, i), level, placed, ceil)
      {
        ghost var level1, done1, placed1, ceil1 := level, done, placed, ceil;
        WaitNext(nodes, list, old(level), level, done0, done, head, raw, i);
        ceil, v := MoveKept(list[i], raw > floor && i == 0, floor, ceil, rest, head, done, bound);
        done := done + {nodes[list[i]].tx};
        MoveNext(nodes, list, old(level), level1, done0, done1, i, v);
        MovesOne(nodes, list, raw, floor, x, i, Work(level1, placed1, ceil1), Work(level, placed, ceil));
      }
    }

    /** Goes through the kept writers number by number. */
    method Renumber(keys: seq<int>, bySeq: map<int, seq<nat>>, floor: int, ceil0: int, ghost head: int,
        ghost done0: set<nat>, ghost bound: int)
      returns (ceil: int, ghost done: set<nat>)
      requires Valid() && Kept(nodes, bySeq, level, done0, head)
      requires Ascending(keys) && (forall r :: 0 <= r < |keys| ==> keys[r] in bySeq && keys[r] <= ceil0)
      requires Ledger(level, done0, head, floor, ceil0, bound) && Clear(level, done0, keys, floor)
      modifies `sequence, `placed, `level
      ensures Valid() && Ledger(level, done, head, floor, ceil, bound)
      ensures AllMoved(nodes, bySeq, keys, |keys|, old(level), level, done0, done)
      ensures var x := Work(old(level), old(placed), ceil0);
        At(MoveLists(nodes, bySeq, keys, floor, x, |keys|), level, placed, ceil)
    {
      hide *;
      ceil, done := ceil0, done0;
      ghost var x := Work(level, placed, ceil0);
      AllMovedNone(nodes, bySeq, keys, level, done0);
      ListsNone(nodes, bySeq, keys, floor, x);
      assert keys[0..] == keys;
      for p := 0 to |keys|
        invariant Valid() && ceil >= ceil0 && Ledger(level, done, head, floor, ceil, bound)
        invariant Clear(level, done, keys[p..], floor)
        invariant AllMoved(nodes, bySeq, keys, p, old(level), level, done0, done)
        invariant At(MoveLists(nodes, bySeq, keys, floor, x, p), level, placed, ceil)
      {
        StillWaiting(nodes, bySeq, keys, old(level), level, done0, done, head, floor, p);
        ghost var level1, done1, placed1, ceil1 := level, done, placed, ceil;
        ceil, done := RenumberList(bySeq[keys[p]], keys[p], floor, ceil, keys[p + 1..], head, done, bound);
        AllMovedNext(nodes, bySeq, keys, p, old(level), level1, level, done0, done1, done);
        ListsOne(nodes, bySeq, keys, floor, x, p, Work(level1, placed1, ceil1), Work(level, placed, ceil));
      }
    }

    /** New numbers start above those of the kept writers. */
    method PlaceKept(keys: seq<int>, bySeq: map<int, seq<nat>>, floor: int, ceil0: int, ghost head: int,
        ghost done0: set<nat>, ghost bound: int)
      returns (ceil: int, ghost done: set<nat>)
      requires Valid() && Kept(nodes, bySeq, level, done0, head)
      requires Ascending(keys) && (forall r :: 0 <= r < |keys| ==> keys[r] in bySeq && keys[r] <= bound)
      requires Ledger(level, done0, head, floor, ceil0, bound) && Clear(level, done0, keys, floor)
      modifies `sequence, `placed, `level
      ensures Valid() && Ledger(level, done, head, floor, ceil, bound)
      ensures AllMoved(nodes, bySeq, keys, |keys|, old(level), level, done0, done)
      ensures var x := Raised(Work(old(level), old(placed), ceil0), keys);
        At(MoveLists(nodes, bySeq, keys, floor, x, |keys|), level, placed, ceil)
    {
      ceil := ceil0;
      assert Raised(Work(level, placed, ceil0), keys) == Work(level, placed,
        if |keys| > 0 && ceil < keys[|keys| - 1] then keys[|keys| - 1] else ceil);
      if |keys| > 0 && ceil < keys[|keys| - 1] {
        ceil := keys[|keys| - 1];
      }
      assert forall r :: 0 <= r < |keys| ==> keys[r] <= keys[|keys| - 1];
      hide *;
      LedgerRaise(level, done0, head, floor, ceil0, ceil, bound);
      ceil, done := Renumber(keys, bySeq, floor, ceil, head, done0, bound);
    }

    /** The first half: reads are numbered and the numbered writers classified. */
    method SortReads(q: Queue, ghost bound: int)
      returns (top: int, same: seq<nat>, bySeq: map<int, seq<nat>>, ghost value: int)
      requires Valid() && QueueOf(nodes, q) && bound >= INITIAL && Below(level, bound)
      modifies `sequence, `placed, `level, `aborted
      ensures Valid() && Below(level, bound) && AbortsOnly(old(aborted), aborted, TxOf(nodes, q.writers))
      ensures HalfSorted(nodes, level, aborted, TxOf(nodes, q.readers), q.writers, top, same, bySeq) && top <= bound
      ensures Sieved(nodes, q, old(level), old(placed), old(aborted), aborted, top, same)
      ensures Starts(old(level), level, TxOf(nodes, q.readers))
      ensures LowRead(old(level), old(aborted), TxOf(nodes, q.readers), value)
      ensures level == ReadLevel(old(level), old(aborted), TxOf(nodes, q.readers), value)
      ensures placed == ReadPlaced(nodes, old(placed), old(aborted), q.readers)
      ensures Bucketed(nodes, TxOf(nodes, q.readers), level, aborted, q.writers, |q.writers|, bySeq)
    {
      ghost var level0, aborted0, placed0 := level, aborted, placed;
      top, value := NumberReads(q);
      ghost var level1 := level;
      TopBelow(level0, level1, aborted, TxOf(nodes, q.readers), top, bound);
      ReadyToClassify(nodes, q, level1, aborted, placed0, placed, top);
      assert LowRead(level0, aborted, TxOf(nodes, q.readers), value);
      hide *;
      same, bySeq := Classify(q, top);
      ReadersKept(nodes, q, level1, placed, aborted0, aborted, top, same, bySeq);
      SieveBack(nodes, q, level0, level1, placed0, placed, aborted0, aborted, top, same);
    }

    /** The second half: every live writer gets a number of its own above the reads. */
    method SortWrites(q: Queue, top: int, same: seq<nat>, bySeq: map<int, seq<nat>>, ghost bound: int)
      returns (keys: seq<int>)
      requires Valid() && QueueOf(nodes, q) && INITIAL <= bound && top <= bound && Below(level, bound)
      requires HalfSorted(nodes, level, aborted, TxOf(nodes, q.readers), q.writers, top, same, bySeq)
      modifies `sequence, `placed, `level, `aborted
      ensures Valid() && QueueSorted(level, aborted, TxOf(nodes, q.readers), TxOf(nodes, q.writers))
      ensures Below(level, bound + |q.writers|) && Raises(old(level), level, TxOf(nodes, q.writers))
      ensures OnlyHead(nodes, same, old(aborted), aborted) && HeadAt(nodes, same, level, top)
      ensures Ascending(keys) && forall s :: s in keys <==> s in bySeq
      ensures var x := WriteWork(nodes, aborted, q.writers, same, top, bySeq, keys, old(level), old(placed));
        Gives(x, level, placed)
    {
      hide *;
      QueueIn(this, q);
      ghost var readers := TxOf(nodes, q.readers);
      keys := SortedKeys(bySeq.Keys);
      KeysBelow(nodes, level, aborted, readers, q.writers, top, same, bySeq, keys, bound);
      var floor, ceil := PlaceHead(same, top);
      QueueIn(this, q);
      ghost var placed2, level2, head, done0, ceil0 := placed, level, Head(nodes, same), HeadSet(nodes, same), ceil;
      AfterHead(nodes, old(level), level, old(aborted), aborted, readers, q.writers, top, same, bySeq, keys, floor,
        ceil, bound);
      ghost var done1: set<nat>;
      ceil, done1 := NumberFree(q.writers, keys, floor, ceil, head, done0, bound);
      ghost var level3, placed3, ceil1 := level, placed, ceil;
      AfterFree(nodes, level2, level3, aborted, q.writers, bySeq, head, done0, done1);
      ghost var done2: set<nat>;
      ceil, done2 := PlaceKept(keys, bySeq, floor, ceil, head, done1, bound);
      WorkDone(nodes, aborted, q.writers, same, top, bySeq, keys, old(level), old(placed), floor,
        Work(level2, placed2, ceil0), Work(level3, placed3, ceil1), Work(level, placed, ceil));
      ghost var x := Course(nodes, readers, q.writers, top, same, bySeq, keys, old(level), old(aborted), level2,
        aborted, level3, done1, level, done2, floor, ceil0);
      PhasesOf(x);
      QueueDone(x, ceil, bound);
    }

    /** `nezhaSortInQueue`: sorts one queue, aborting exactly the writers that must be. */
    method SortInQueue(q: Queue, ghost bound: int) returns (ghost top: int, ghost value: int, keys: seq<int>)
      requires Valid() && QueueOf(nodes, q) && bound >= INITIAL && Below(level, bound)
      modifies `sequence, `placed, `level, `aborted
      ensures Valid() && QueueSorted(level, aborted, TxOf(nodes, q.readers), TxOf(nodes, q.writers))
      ensures Below(level, bound + |q.writers|)
      ensures Renumbers(old(level), level, TxOf(nodes, q.readers), TxOf(nodes, q.writers))
      ensures TopRead(old(level), old(aborted), TxOf(nodes, q.readers), top)
      ensures AbortsExactly(nodes, q, old(level), old(placed), old(aborted), aborted, top)
      ensures HeadAt(nodes, Heads(nodes, q, old(aborted)), level, top)
      ensures QueueResult(nodes, q, old(Marks(level, placed, aborted)), Marks(level, placed, aborted), top, value, keys)
    {
      ghost var readers, writers := TxOf(nodes, q.readers), TxOf(nodes, q.writers);
      assert |old(aborted)| == |old(level)|;
      hide *;
      var highest, same, bySeq;
      highest, same, bySeq, value := SortReads(q, bound);
      top := highest;
      ghost var level1, aborted1, placed1 := level, aborted, placed;
      keys := SortWrites(q, highest, same, bySeq, bound);
      SameBuckets(nodes, q, level1, aborted1, aborted, top, same, bySeq, keys);
      ExactAborts(nodes, q, old(level), old(placed), old(aborted), aborted1, aborted, top, same);
      RenumbersBoth(old(level), level1, level, readers, writers);
      IsResult(nodes, q, old(Marks(level, placed, aborted)), Marks(level, placed, aborted), level1, placed1, same,
        bySeq, top, value, keys);
    }

    /** Sorts every queue in the given order. However often transactions are renumbered, a
        number never exceeds the initial one by more than the number of writes. In the end a
        queue is sorted up to the transactions that write an address sorted later. */
    method SortAll(order: seq<Queue>) returns (ghost trace: seq<Marks>)
      requires Valid() && Below(level, INITIAL) && forall p :: 0 <= p < |order| ==> QueueOf(nodes, order[p])
      modifies `sequence, `placed, `level, `aborted
      ensures Valid() && Traced(nodes, order, trace) && trace[0] == old(Marks(level, placed, aborted))
      ensures trace[|order|] == Marks(level, placed, aborted)
      ensures Below(level, INITIAL + Writes(order, |order|)) && |aborted| == |old(aborted)|
      ensures forall t: nat :: t < |aborted| && old(aborted)[t] ==> aborted[t]
      ensures forall p :: 0 <= p < |order| ==> Settled(nodes, order, p, |order|, level, aborted)
      ensures forall p :: 0 <= p < |order| && Undisturbed(nodes, order, p) ==> SortedAt(nodes, order[p], level, aborted)
    {
      hide *;
      trace := [Marks(level, placed, aborted)];
      TraceStart(nodes, order, trace[0]);
      for p := 0 to |order|
        invariant Valid() && Below(level, INITIAL + Writes(order, p))
        invariant |trace| == p + 1 && TracedTo(nodes, order, trace, p)
        invariant trace[0] == old(Marks(level, placed, aborted)) && trace[p] == Marks(level, placed, aborted)
      {
        Lengths(this);
        WritesNext(order, p);
        ghost var top, value;
        var keys;
        top, value, keys := SortInQueue(order[p], INITIAL + Writes(order, p));
        Lengths(this);
        Stepped(nodes, order[p], trace[p], Marks(level, placed, aborted), top, value, keys);
        TraceNext(nodes, order, trace, p, Marks(level, placed, aborted));
        trace := trace + [Marks(level, placed, aborted)];
      }
      TraceWhole(nodes, order, trace);
      Lengths(this);
      AbortsStay(nodes, order, trace, |order|);
      forall p | 0 <= p < |order|
        ensures Settled(nodes, order, p, |order|, level, aborted)
        ensures Undisturbed(nodes, order, p) ==> SortedAt(nodes, order[p], level, aborted)
      {
        EndsSettled(nodes, order, trace, p, |order|);
        if Undisturbed(nodes, order, p) {
          SettledIsSorted(nodes, order, p, level, aborted);
        }
      }
    }
  }

  // ---- What a whole run of the sorter leaves ----

  /** Numbers, placement and abort flags at one time. */
  datatype Marks = Marks(level: seq<int>, placed: seq<bool>, aborted: seq<bool>)

  /** The writers that also read the address, of which only the first may stay. */
  ghost function Heads(nodes: seq<Node>, q: Queue, aborted: seq<bool>): seq<nat>
    requires QueueOf(nodes, q)
  {
    Both(nodes, TxOf(nodes, q.readers), aborted, q.writers, |q.writers|)
  }

  /** The first of them got the number after the highest read. */
  ghost predicate HeadAt(nodes: seq<Node>, same: seq<nat>, level: seq<int>, top: int) {
    Head(nodes, same) >= 0 ==> Head(nodes, same) < |level| && level[Head(nodes, same)] == top + 1
  }

  /** Everything one queue's sorting does. */
  ghost predicate SortStep(nodes: seq<Node>, q: Queue, m: Marks, m': Marks) {
    && QueueOf(nodes, q) && |m.level| == |m.aborted| == |m'.level| == |m'.aborted|
    && QueueSorted(m'.level, m'.aborted, TxOf(nodes, q.readers), TxOf(nodes, q.writers))
    && Renumbers(m.level, m'.level, TxOf(nodes, q.readers), TxOf(nodes, q.writers))
    && exists top, value, keys :: Decided(nodes, q, m, m', top) && QueueResult(nodes, q, m, m', top, value, keys)
  }

  /** The writers that stay in a queue, by number. */
  ghost function Buckets(nodes: seq<Node>, readers: set<nat>, level: seq<int>, aborted: seq<bool>, writers: seq<nat>,
      keys: seq<int>): map<int, seq<nat>> {
    map s | s in keys :: KeptAt(nodes, readers, level, aborted, writers, |writers|, s)
  }

  /** The numbers of the writers that stay. */
  ghost predicate Uses(nodes: seq<Node>, readers: set<nat>, level: seq<int>, aborted: seq<bool>, writers: seq<nat>,
      keys: seq<int>) {
    forall s :: s in keys <==> KeptAt(nodes, readers, level, aborted, writers, |writers|, s) != []
  }

  /** What the marks are after a queue, given the highest and the lowest number of its readers and
      the numbers of the writers that stay. */
  ghost predicate QueueResult(nodes: seq<Node>, q: Queue, m: Marks, m': Marks, top: int, value: int, keys: seq<int>) {
    && QueueOf(nodes, q) && |m.level| == |m.aborted|
    && var readers := TxOf(nodes, q.readers);
    && TopRead(m.level, m.aborted, readers, top) && LowRead(m.level, m.aborted, readers, value)
    && AbortsExactly(nodes, q, m.level, m.placed, m.aborted, m'.aborted, top)
    && var level, placed := ReadLevel(m.level, m.aborted, readers, value), ReadPlaced(nodes, m.placed, m.aborted,
      q.readers);
    && Ascending(keys)
    && Uses(nodes, readers, level, m'.aborted, q.writers, keys)
    && var buckets := Buckets(nodes, readers, level, m'.aborted, q.writers, keys);
    && var x := WriteWork(nodes, m'.aborted, q.writers, Heads(nodes, q, m.aborted), top, buckets, keys, level, placed);
    Gives(x, m'.level, m'.placed)
  }

  /** Who lost and what number the winner got, given the highest read. */
  ghost predicate Decided(nodes: seq<Node>, q: Queue, m: Marks, m': Marks, top: int)
    requires QueueOf(nodes, q) && |m.level| == |m.aborted|
  {
    && TopRead(m.level, m.aborted, TxOf(nodes, q.readers), top)
    && AbortsExactly(nodes, q, m.level, m.placed, m.aborted, m'.aborted, top)
    && HeadAt(nodes, Heads(nodes, q, m.aborted), m'.level, top)
  }

  lemma ReadExactly(nodes: seq<Node>, ids: seq<nat>, before: seq<int>, level: seq<int>, aborted: seq<bool>,
      placed0: seq<bool>, placed: seq<bool>, top: int, value: int)
    requires (forall n :: n in ids ==> n < |nodes|) && |placed0| == |nodes| && |aborted| == |level| == |before|
    requires ReadsNumbered(before, level, aborted, TxOf(nodes, ids), top)
    requires ReadValue(before, level, aborted, TxOf(nodes, ids), value)
    requires PlacedAll(nodes, ids, aborted, placed0, placed)
    ensures level == ReadLevel(before, aborted, TxOf(nodes, ids), value)
    ensures placed == ReadPlaced(nodes, placed0, aborted, ids)
  {
    hide LowRead; hide TxOf;
  }

  lemma NothingBucketed(nodes: seq<Node>, readers: set<nat>, level: seq<int>, aborted: seq<bool>, writers: seq<nat>)
    ensures Bucketed(nodes, readers, level, aborted, writers, 0, map[])
  {
  }

  /** Flags of transactions that none of the first `n` writers belong to do not matter. */
  lemma {:induction false} SameKept(nodes: seq<Node>, readers: set<nat>, level: seq<int>, aborted: seq<bool>,
      aborted': seq<bool>, writers: seq<nat>, n: nat, s: int)
    requires n <= |writers| && |aborted| == |aborted'|
    requires forall r :: 0 <= r < n && writers[r] < |nodes| && nodes[writers[r]].tx < |aborted| ==>
      nodes[writers[r]].tx in readers || aborted[nodes[writers[r]].tx] == aborted'[nodes[writers[r]].tx]
    ensures KeptAt(nodes, readers, level, aborted, writers, n, s)
      == KeptAt(nodes, readers, level, aborted', writers, n, s)
  {
    if n > 0 {
      SameKept(nodes, readers, level, aborted, aborted', writers, n - 1, s);
    }
  }

  lemma BucketNext(nodes: seq<Node>, q: Queue, level: seq<int>, placed: seq<bool>, top: int, aborted: seq<bool>, p: nat,
      bySeq: map<int, seq<nat>>, fate: Fate)
    requires QueueOf(nodes, q) && p < |q.writers| && q.writers[p] < |nodes|
    requires IsFate(nodes, q, level, placed, top, aborted, q.writers[p], fate)
    requires forall t :: 0 <= t < |level| ==> level[t] >= 0
    requires Bucketed(nodes, TxOf(nodes, q.readers), level, aborted, q.writers, p, bySeq)
    ensures var w, t, s := q.writers[p], nodes[q.writers[p]].tx, level[nodes[q.writers[p]].tx];
      match fate
      case Abort => Bucketed(nodes, TxOf(nodes, q.readers), level, aborted[t := true], q.writers, p + 1, bySeq)
      case Keep => Bucketed(nodes, TxOf(nodes, q.readers), level, aborted, q.writers, p + 1,
        bySeq[s := ListAt(bySeq, s) + [w]])
      case _ => Bucketed(nodes, TxOf(nodes, q.readers), level, aborted, q.writers, p + 1, bySeq)
  {
    var readers, w := TxOf(nodes, q.readers), q.writers[p];
    var t := nodes[w].tx;
    hide Late;
    if fate == Abort {
      forall s
        ensures KeptAt(nodes, readers, level, aborted[t := true], q.writers, p, s)
             == KeptAt(nodes, readers, level, aborted, q.writers, p, s)
      {
        SameKept(nodes, readers, level, aborted, aborted[t := true], q.writers, p, s);
      }
    }
    if fate == Keep {
      BucketKeep(nodes, readers, level, aborted, q.writers, p, bySeq);
    }
    hide QueueOf; hide TxOf;
  }

  lemma BucketKeep(nodes: seq<Node>, readers: set<nat>, level: seq<int>, aborted: seq<bool>, writers: seq<nat>, p: nat,
      bySeq: map<int, seq<nat>>)
    requires p < |writers| && writers[p] < |nodes| && nodes[writers[p]].tx < |level|
    requires KeptWith(nodes, readers, level, aborted, writers[p], level[nodes[writers[p]].tx])
    requires Bucketed(nodes, readers, level, aborted, writers, p, bySeq)
    ensures var s := level[nodes[writers[p]].tx];
      Bucketed(nodes, readers, level, aborted, writers, p + 1, bySeq[s := ListAt(bySeq, s) + [writers[p]]])
  {
    var k := level[nodes[writers[p]].tx];
    var bySeq' := bySeq[k := ListAt(bySeq, k) + [writers[p]]];
    forall s
      ensures ListAt(bySeq', s) == KeptAt(nodes, readers, level, aborted, writers, p + 1, s)
    {
      assert ListAt(bySeq, s) == KeptAt(nodes, readers, level, aborted, writers, p, s);
      assert ListAt(bySeq', s) == if s == k then ListAt(bySeq, k) + [writers[p]] else ListAt(bySeq, s);
    }
  }

  /** What the sorter's tables have for a node. */
  lemma NodeIn(sorter: Sorter, w: nat)
    requires sorter.Valid() && w < |sorter.nodes|
    ensures |sorter.placed| == |sorter.nodes| == |sorter.sequence| && |sorter.level| == |sorter.aborted|
    ensures sorter.nodes[w].tx < |sorter.level| && sorter.sequence[w] == sorter.level[sorter.nodes[w].tx] >= 0
  {
  }

  lemma QueueIn(sorter: Sorter, q: Queue)
    requires sorter.Valid() && QueueOf(sorter.nodes, q)
    ensures OnePerTx(sorter.nodes, q.writers) && (forall n :: n in q.readers ==> n < |sorter.nodes|)
    ensures forall n :: n in q.writers ==> n < |sorter.nodes| && sorter.nodes[n].tx < |sorter.level|
  {
  }

  lemma NextOf(nodes: seq<Node>, writers: seq<nat>, p: nat)
    requires OnePerTx(nodes, writers) && p < |writers|
    ensures writers[p] < |nodes| && Next(nodes, writers[..p], writers[p])
  {
  }

  lemma UnplacedIs(nodes: seq<Node>, aborted: seq<bool>, level: seq<int>, w: nat)
    requires w < |nodes| && nodes[w].tx < |level| == |aborted|
    ensures Unplaced(nodes, aborted, level, w) <==> level[nodes[w].tx] == 0 && !aborted[nodes[w].tx]
    ensures Live(aborted, nodes[w].tx) <==> !aborted[nodes[w].tx]
  {
  }

  lemma FreedNone(nodes: seq<Node>, aborted: seq<bool>, level: seq<int>, done: set<nat>)
    ensures Freed(nodes, aborted, [], level, level, done, done)
  {
  }

  lemma KeepsOn(nodes: seq<Node>, x: Work, w: nat)
    ensures At(MovedOn(nodes, x, w, true), x.level, x.placed, x.ceil)
  {
  }

  lemma MovesOn(nodes: seq<Node>, x: Work, w: nat)
    requires w < |nodes| && nodes[w].tx < |x.level| && w < |x.placed|
    ensures At(MovedOn(nodes, x, w, false), x.level[nodes[w].tx := x.ceil + 1], x.placed[w := true], x.ceil + 1)
  {
  }

  lemma FreesNone(nodes: seq<Node>, aborted: seq<bool>, writers: seq<nat>, keys: seq<int>, x: Work)
    ensures At(FreeUpTo(nodes, aborted, writers, keys, x, 0), x.level, x.placed, x.ceil)
  {
  }

  lemma FreesOne(nodes: seq<Node>, aborted: seq<bool>, writers: seq<nat>, keys: seq<int>, x: Work, p: nat,
      level: seq<int>, placed: seq<bool>, ceil: int, v: int)
    requires p < |writers| && At(FreeUpTo(nodes, aborted, writers, keys, x, p), level, placed, ceil)
    requires Unplaced(nodes, aborted, level, writers[p]) && writers[p] < |placed| && IsLeastFree(keys, ceil, v)
    ensures At(FreeUpTo(nodes, aborted, writers, keys, x, p + 1), level[nodes[writers[p]].tx := v],
        placed[writers[p] := true], v)
  {
    LeastFreeIs(keys, ceil, v);
    hide LeastFree; hide IsLeastFree;
  }

  lemma FreesOther(nodes: seq<Node>, aborted: seq<bool>, writers: seq<nat>, keys: seq<int>, x: Work, p: nat,
      level: seq<int>, placed: seq<bool>, ceil: int)
    requires p < |writers| && At(FreeUpTo(nodes, aborted, writers, keys, x, p), level, placed, ceil)
    requires !Unplaced(nodes, aborted, level, writers[p])
    ensures At(FreeUpTo(nodes, aborted, writers, keys, x, p + 1), level, placed, ceil)
  {
    hide LeastFree;
  }

  lemma MovesNone(nodes: seq<Node>, list: seq<nat>, raw: int, floor: int, x: Work)
    ensures At(MoveUpTo(nodes, list, raw, floor, x, 0), x.level, x.placed, x.ceil)
  {
  }

  lemma MovesOne(nodes: seq<Node>, list: seq<nat>, raw: int, floor: int, x: Work, i: nat, y: Work, z: Work)
    requires i < |list| && At(MoveUpTo(nodes, list, raw, floor, x, i), y.level, y.placed, y.ceil)
    requires At(MovedOn(nodes, y, list[i], raw > floor && i == 0), z.level, z.placed, z.ceil)
    ensures At(MoveUpTo(nodes, list, raw, floor, x, i + 1), z.level, z.placed, z.ceil)
  {
    hide MovedOn;
  }

  lemma ListsNone(nodes: seq<Node>, bySeq: map<int, seq<nat>>, keys: seq<int>, floor: int, x: Work)
    ensures At(MoveLists(nodes, bySeq, keys, floor, x, 0), x.level, x.placed, x.ceil)
  {
  }

  lemma ListsOne(nodes: seq<Node>, bySeq: map<int, seq<nat>>, keys: seq<int>, floor: int, x: Work, p: nat, y: Work,
      z: Work)
    requires p < |keys| && keys[p] in bySeq
    requires At(MoveLists(nodes, bySeq, keys, floor, x, p), y.level, y.placed, y.ceil)
    requires At(MoveUpTo(nodes, bySeq[keys[p]], keys[p], floor, y, |bySeq[keys[p]]|), z.level, z.placed, z.ceil)
    ensures At(MoveLists(nodes, bySeq, keys, floor, x, p + 1), z.level, z.placed, z.ceil)
  {
    hide MoveUpTo;
  }

  lemma WorkDone(nodes: seq<Node>, aborted: seq<bool>, writers: seq<nat>, same: seq<nat>, top: int,
      bySeq: map<int, seq<nat>>, keys: seq<int>, level: seq<int>, placed: seq<bool>, floor: int, x: Work, y: Work,
      z: Work)
    requires floor == if same == [] then top else x.ceil
    requires At(HeadWork(nodes, same, top, level, placed), x.level, x.placed, x.ceil)
    requires At(FreeUpTo(nodes, aborted, writers, keys, x, |writers|), y.level, y.placed, y.ceil)
    requires At(MoveLists(nodes, bySeq, keys, floor, Raised(y, keys), |keys|), z.level, z.placed, z.ceil)
    ensures Gives(WriteWork(nodes, aborted, writers, same, top, bySeq, keys, level, placed), z.level, z.placed)
  {
    hide FreeUpTo; hide MoveLists; hide HeadWork; hide Raised;
  }

  lemma TailReads(nodes: seq<Node>, level: seq<int>, mid: seq<bool>, aborted: seq<bool>, readers: set<nat>,
      writers: seq<nat>, same: seq<nat>, bySeq: map<int, seq<nat>>)
    requires Classified(nodes, level, mid, readers, writers, same, bySeq) && OnlyHead(nodes, same, mid, aborted)
    ensures |mid| == |aborted| && forall t: nat :: t < |mid| && t !in readers ==> mid[t] == aborted[t]
    ensures forall s :: s in bySeq ==> bySeq[s] != []
  {
    hide Sorted; hide Keeps; hide OnePerTx;
  }

  /** The lists by number are the same under the final flags: only readers were aborted since. */
  lemma SameBuckets(nodes: seq<Node>, q: Queue, level: seq<int>, mid: seq<bool>, aborted: seq<bool>, top: int,
      same: seq<nat>, bySeq: map<int, seq<nat>>, keys: seq<int>)
    requires QueueOf(nodes, q) && OnlyHead(nodes, same, mid, aborted) && forall s :: s in keys <==> s in bySeq
    requires HalfSorted(nodes, level, mid, TxOf(nodes, q.readers), q.writers, top, same, bySeq)
    requires Bucketed(nodes, TxOf(nodes, q.readers), level, mid, q.writers, |q.writers|, bySeq)
    ensures bySeq == Buckets(nodes, TxOf(nodes, q.readers), level, aborted, q.writers, keys)
    ensures Uses(nodes, TxOf(nodes, q.readers), level, aborted, q.writers, keys)
  {
    var readers, n := TxOf(nodes, q.readers), |q.writers|;
    TailReads(nodes, level, mid, aborted, readers, q.writers, same, bySeq);
    hide *;
    forall s
      ensures KeptAt(nodes, readers, level, mid, q.writers, n, s)
           == KeptAt(nodes, readers, level, aborted, q.writers, n, s)
    {
      SameKept(nodes, readers, level, mid, aborted, q.writers, n, s);
    }
    BucketsAre(nodes, readers, level, mid, aborted, q.writers, bySeq, keys);
  }

  lemma BucketsAre(nodes: seq<Node>, readers: set<nat>, level: seq<int>, mid: seq<bool>, aborted: seq<bool>,
      writers: seq<nat>, bySeq: map<int, seq<nat>>, keys: seq<int>)
    requires Bucketed(nodes, readers, level, mid, writers, |writers|, bySeq)
    requires forall s :: KeptAt(nodes, readers, level, mid, writers, |writers|, s)
                      == KeptAt(nodes, readers, level, aborted, writers, |writers|, s)
    requires (forall s :: s in keys <==> s in bySeq) && forall s :: s in bySeq ==> bySeq[s] != []
    ensures bySeq == Buckets(nodes, readers, level, aborted, writers, keys)
    ensures Uses(nodes, readers, level, aborted, writers, keys)
  {
    hide KeptAt;
    var buckets := Buckets(nodes, readers, level, aborted, writers, keys);
    assert forall s :: s in buckets <==> s in bySeq;
    forall s | s in bySeq
      ensures bySeq[s] == buckets[s]
    {
      assert bySeq[s] == ListAt(bySeq, s);
    }
    forall s
      ensures s in keys <==> KeptAt(nodes, readers, level, aborted, writers, |writers|, s) != []
    {
      assert ListAt(bySeq, s) == KeptAt(nodes, readers, level, mid, writers, |writers|, s);
    }
  }

  lemma IsResult(nodes: seq<Node>, q: Queue, m: Marks, m': Marks, level: seq<int>, placed: seq<bool>, same: seq<nat>,
      bySeq: map<int, seq<nat>>, top: int, value: int, keys: seq<int>)
    requires QueueOf(nodes, q) && |m.level| == |m.aborted| && same == Heads(nodes, q, m.aborted)
    requires TopRead(m.level, m.aborted, TxOf(nodes, q.readers), top)
    requires LowRead(m.level, m.aborted, TxOf(nodes, q.readers), value)
    requires AbortsExactly(nodes, q, m.level, m.placed, m.aborted, m'.aborted, top)
    requires level == ReadLevel(m.level, m.aborted, TxOf(nodes, q.readers), value)
    requires placed == ReadPlaced(nodes, m.placed, m.aborted, q.readers)
    requires Ascending(keys) && Uses(nodes, TxOf(nodes, q.readers), level, m'.aborted, q.writers, keys)
    requires bySeq == Buckets(nodes, TxOf(nodes, q.readers), level, m'.aborted, q.writers, keys)
    requires var x := WriteWork(nodes, m'.aborted, q.writers, same, top, bySeq, keys, level, placed);
      Gives(x, m'.level, m'.placed)
    ensures QueueResult(nodes, q, m, m', top, value, keys)
  {
    hide TopRead; hide LowRead; hide AbortsExactly; hide Uses; hide WriteWork; hide Buckets; hide QueueOf; hide TxOf;
  }

  ghost predicate TracedTo(nodes: seq<Node>, order: seq<Queue>, trace: seq<Marks>, n: nat) {
    && n <= |order| && |trace| == n + 1 && Below(trace[0].level, INITIAL)
    && forall p :: 0 <= p < n ==> StepAt(nodes, order, trace, p)
  }

  ghost predicate StepAt(nodes: seq<Node>, order: seq<Queue>, trace: seq<Marks>, p: nat) {
    && p < |order| && p + 1 < |trace| && SortStep(nodes, order[p], trace[p], trace[p + 1])
    && Below(trace[p + 1].level, INITIAL + Writes(order, p + 1))
  }

  /** `trace[p]` is what sorting the first `p` queues leaves. */
  ghost predicate Traced(nodes: seq<Node>, order: seq<Queue>, trace: seq<Marks>) {
    TracedTo(nodes, order, trace, |order|)
  }

  /** The transaction writes the address of one of the queues from `lo` to below `hi`. */
  ghost predicate WritesIn(nodes: seq<Node>, order: seq<Queue>, lo: nat, hi: nat, t: nat) {
    hi <= |order| && exists r :: lo <= r < hi && WritesAt(nodes, order[r], t)
  }

  ghost predicate WritesAt(nodes: seq<Node>, q: Queue, t: nat) {
    exists n :: n in q.writers && n < |nodes| && nodes[n].tx == t
  }

  ghost predicate SortedAt(nodes: seq<Node>, q: Queue, level: seq<int>, aborted: seq<bool>) {
    && |level| == |aborted| && QueueOf(nodes, q)
    && QueueSorted(level, aborted, TxOf(nodes, q.readers), TxOf(nodes, q.writers))
  }

  /** What remains of the order in queue `p` after `n` queues: a live writer stays above every
      other live reader that has not written since, and two live writers that have not written
      since stay apart. */
  ghost predicate Settled(nodes: seq<Node>, order: seq<Queue>, p: nat, n: nat, level: seq<int>, aborted: seq<bool>) {
    && p < n <= |order| && |level| == |aborted| && QueueOf(nodes, order[p])
    && var readers, writers := TxOf(nodes, order[p].readers), TxOf(nodes, order[p].writers);
    && (forall t, u :: t in writers && u in readers && t != u && Live(aborted, t) && Live(aborted, u)
          ==> WritesIn(nodes, order, p + 1, n, u) || level[t] > level[u])
    && (forall t, u :: t in writers && u in writers && t != u && Live(aborted, t) && Live(aborted, u)
          ==> WritesIn(nodes, order, p + 1, n, t) || WritesIn(nodes, order, p + 1, n, u) || level[t] != level[u])
    && (forall t :: (t in readers || t in writers) && Live(aborted, t) ==> level[t] > 0)
  }

  /** No transaction on the address writes an address sorted later. */
  ghost predicate Undisturbed(nodes: seq<Node>, order: seq<Queue>, p: nat)
    requires p < |order| && QueueOf(nodes, order[p])
  {
    forall t :: t in TxOf(nodes, order[p].readers) || t in TxOf(nodes, order[p].writers)
      ==> !WritesIn(nodes, order, p + 1, |order|, t)
  }

  lemma Lengths(sorter: Sorter)
    requires sorter.Valid()
    ensures |sorter.level| == |sorter.aborted| && |sorter.placed| == |sorter.nodes|
  {
  }

  lemma WritesNext(order: seq<Queue>, p: nat)
    requires p < |order|
    ensures Writes(order, p + 1) == Writes(order, p) + |order[p].writers|
  {
  }

  lemma TraceStart(nodes: seq<Node>, order: seq<Queue>, m: Marks)
    requires Below(m.level, INITIAL)
    ensures TracedTo(nodes, order, [m], 0) && Writes(order, 0) == 0
  {
  }

  lemma Stepped(nodes: seq<Node>, q: Queue, m: Marks, m': Marks, top: int, value: int, keys: seq<int>)
    requires QueueOf(nodes, q) && |m.level| == |m.aborted| && |m'.level| == |m'.aborted|
    requires QueueSorted(m'.level, m'.aborted, TxOf(nodes, q.readers), TxOf(nodes, q.writers))
    requires Renumbers(m.level, m'.level, TxOf(nodes, q.readers), TxOf(nodes, q.writers))
    requires TopRead(m.level, m.aborted, TxOf(nodes, q.readers), top)
    requires AbortsExactly(nodes, q, m.level, m.placed, m.aborted, m'.aborted, top)
    requires HeadAt(nodes, Heads(nodes, q, m.aborted), m'.level, top) && QueueResult(nodes, q, m, m', top, value, keys)
    ensures SortStep(nodes, q, m, m')
  {
    hide TopRead; hide AbortsExactly; hide HeadAt; hide QueueSorted; hide QueueOf; hide Heads; hide QueueResult;
    assert Decided(nodes, q, m, m', top);
  }

  lemma TraceNext(nodes: seq<Node>, order: seq<Queue>, trace: seq<Marks>, p: nat, m: Marks)
    requires TracedTo(nodes, order, trace, p) && p < |order| && SortStep(nodes, order[p], trace[p], m)
    requires Below(m.level, INITIAL + Writes(order, p + 1))
    ensures TracedTo(nodes, order, trace + [m], p + 1)
  {
    hide SortStep; hide Below;
    forall r | 0 <= r < p + 1
      ensures StepAt(nodes, order, trace + [m], r)
    {
      assert r < p ==> StepAt(nodes, order, trace, r);
    }
  }

  lemma TraceWhole(nodes: seq<Node>, order: seq<Queue>, trace: seq<Marks>)
    requires TracedTo(nodes, order, trace, |order|)
    ensures Traced(nodes, order, trace) && |trace| == |order| + 1
  {
  }

  /** Aborts are never undone. */
  lemma {:induction false} AbortsStay(nodes: seq<Node>, order: seq<Queue>, trace: seq<Marks>, n: nat)
    requires Traced(nodes, order, trace) && n <= |order|
    ensures |trace[n].aborted| == |trace[0].aborted|
    ensures forall t: nat :: t < |trace[n].aborted| && trace[0].aborted[t] ==> trace[n].aborted[t]
  {
    hide SortStep; hide Below;
    if n > 0 {
      AbortsStay(nodes, order, trace, n - 1);
      assert StepAt(nodes, order, trace, n - 1);
      AbortsMore(nodes, order[n - 1], trace[n - 1], trace[n]);
    }
  }

  lemma AbortsMore(nodes: seq<Node>, q: Queue, m: Marks, m': Marks)
    requires SortStep(nodes, q, m, m')
    ensures |m.aborted| == |m'.aborted| && forall t: nat :: t < |m'.aborted| && m.aborted[t] ==> m'.aborted[t]
  {
    hide TopRead; hide Loses; hide HeadAt; hide QueueResult;
    var top, value, keys :| Decided(nodes, q, m, m', top) && QueueResult(nodes, q, m, m', top, value, keys);
  }

  /** By induction over the queues sorted since. */
  lemma {:induction false} EndsSettled(nodes: seq<Node>, order: seq<Queue>, trace: seq<Marks>, p: nat, n: nat)
    requires Traced(nodes, order, trace) && p < n <= |order|
    ensures Settled(nodes, order, p, n, trace[n].level, trace[n].aborted)
  {
    hide SortStep; hide Below; hide Settled;
    assert StepAt(nodes, order, trace, n - 1);
    if n == p + 1 {
      JustSorted(nodes, order, p, trace[p], trace[n]);
    } else {
      EndsSettled(nodes, order, trace, p, n - 1);
      StaysSettled(nodes, order, p, n - 1, trace[n - 1], trace[n]);
    }
  }

  lemma JustSorted(nodes: seq<Node>, order: seq<Queue>, p: nat, m: Marks, m': Marks)
    requires p < |order| && SortStep(nodes, order[p], m, m')
    ensures Settled(nodes, order, p, p + 1, m'.level, m'.aborted)
  {
    hide Decided; hide QueueOf; hide Renumbers; hide TxOf;
  }

  lemma StaysSettled(nodes: seq<Node>, order: seq<Queue>, p: nat, n: nat, m: Marks, m': Marks)
    requires p < n < |order| && SortStep(nodes, order[n], m, m') && Settled(nodes, order, p, n, m.level, m.aborted)
    ensures Settled(nodes, order, p, n + 1, m'.level, m'.aborted)
  {
    hide Decided; hide QueueSorted; hide Renumbers; hide WritesIn; hide TxOf;
    AbortsMore(nodes, order[n], m, m');
    var readers, writers := TxOf(nodes, order[p].readers), TxOf(nodes, order[p].writers);
    hide QueueOf;
    forall t, u | t in writers && u in readers && t != u && Live(m'.aborted, t) && Live(m'.aborted, u)
      ensures WritesIn(nodes, order, p + 1, n + 1, u) || m'.level[t] > m'.level[u]
    {
      KeepsNumber(nodes, order, p + 1, n, m, m', t);
      KeepsNumber(nodes, order, p + 1, n, m, m', u);
    }
    forall t, u | t in writers && u in writers && t != u && Live(m'.aborted, t) && Live(m'.aborted, u)
      ensures WritesIn(nodes, order, p + 1, n + 1, t) || WritesIn(nodes, order, p + 1, n + 1, u)
        || m'.level[t] != m'.level[u]
    {
      KeepsNumber(nodes, order, p + 1, n, m, m', t);
      KeepsNumber(nodes, order, p + 1, n, m, m', u);
    }
    forall t | (t in readers || t in writers) && Live(m'.aborted, t)
      ensures m'.level[t] > 0
    {
      KeepsNumber(nodes, order, p + 1, n, m, m', t);
    }
  }

  /** A number once given stays until the transaction writes an address being sorted. */
  lemma KeepsNumber(nodes: seq<Node>, order: seq<Queue>, lo: nat, n: nat, m: Marks, m': Marks, t: nat)
    requires lo <= n < |order| && SortStep(nodes, order[n], m, m') && t < |m.level|
    ensures |m'.level| == |m.level| && WritesIn(nodes, order, lo, n, t) ==> WritesIn(nodes, order, lo, n + 1, t)
    ensures m'.level[t] >= m.level[t]
    ensures m.level[t] > 0 && !WritesIn(nodes, order, lo, n + 1, t) ==> m'.level[t] == m.level[t]
  {
    WritesMore(nodes, order, lo, n, t);
    hide Decided; hide QueueSorted; hide QueueOf; hide WritesIn; hide TxOf;
  }

  lemma WritesMore(nodes: seq<Node>, order: seq<Queue>, lo: nat, n: nat, t: nat)
    requires lo <= n < |order| && QueueOf(nodes, order[n])
    ensures WritesIn(nodes, order, lo, n, t) ==> WritesIn(nodes, order, lo, n + 1, t)
    ensures t in TxOf(nodes, order[n].writers) ==> WritesIn(nodes, order, lo, n + 1, t)
  {
    hide WritesAt;
    if t in TxOf(nodes, order[n].writers) {
      WriterWrites(nodes, order[n], t);
    }
  }

  lemma WriterWrites(nodes: seq<Node>, q: Queue, t: nat)
    requires QueueOf(nodes, q)
    ensures t in TxOf(nodes, q.writers) <==> WritesAt(nodes, q, t)
  {
  }

  lemma SettledIsSorted(nodes: seq<Node>, order: seq<Queue>, p: nat, level: seq<int>, aborted: seq<bool>)
    requires Settled(nodes, order, p, |order|, level, aborted) && Undisturbed(nodes, order, p)
    ensures SortedAt(nodes, order[p], level, aborted)
  {
    hide WritesIn; hide QueueOf; hide TxOf;
  }

  ghost function Writes(order: seq<Queue>, p: nat): nat
    requires p <= |order|
  {
    if p == 0 then 0 else Writes(order, p - 1) + |order[p - 1].writers|
  }

  // ---- From phase to phase ----

  ghost predicate Below(level: seq<int>, bound: int) {
    forall t :: 0 <= t < |level| ==> 0 <= level[t] <= bound
  }

  /** Only numbers of `s` have changed, and they have grown. */
  ghost predicate Raises(before: seq<int>, level: seq<int>, s: set<nat>) {
    |before| == |level| && forall t: nat :: t < |level| && level[t] != before[t] ==> t in s && level[t] > before[t]
  }

  /** Only members of `s` without a number have got one. */
  ghost predicate Starts(before: seq<int>, level: seq<int>, s: set<nat>) {
    |before| == |level| && forall t: nat ::
      t < |level| && level[t] != before[t] ==> t in s && before[t] == 0 && level[t] > 0
  }

  /** What sorting a queue does to numbers: they never fall, and a number once given changes only
      for writers of the address. */
  ghost predicate Renumbers(before: seq<int>, level: seq<int>, readers: set<nat>, writers: set<nat>) {
    |before| == |level| && forall t: nat :: t < |level| && level[t] != before[t] ==>
      && level[t] > before[t]
      && (t in writers || (t in readers && before[t] == 0))
  }

  lemma RenumbersBoth(a: seq<int>, b: seq<int>, c: seq<int>, readers: set<nat>, writers: set<nat>)
    requires Starts(a, b, readers) && Raises(b, c, writers)
    ensures Renumbers(a, c, readers, writers)
  {
  }

  /** A live writer that must be aborted: of those that also read the address all but the
      first, of the others the late ones. */
  ghost predicate Loses(nodes: seq<Node>, q: Queue, level: seq<int>, placed: seq<bool>, aborted: seq<bool>, top: int,
      t: nat)
    requires QueueOf(nodes, q)
  {
    && t in TxOf(nodes, q.writers) && Live(aborted, t)
    && if t in TxOf(nodes, q.readers) then
      t != Head(nodes, Both(nodes, TxOf(nodes, q.readers), aborted, q.writers, |q.writers|))
      else Late(nodes, level, placed, top, t)
  }

  ghost predicate AbortsExactly(nodes: seq<Node>, q: Queue, level: seq<int>, placed: seq<bool>, before: seq<bool>,
      aborted: seq<bool>, top: int)
    requires QueueOf(nodes, q)
  {
    |before| == |aborted| && forall t: nat ::
      t < |aborted| ==> (aborted[t] <==> before[t] || Loses(nodes, q, level, placed, before, top, t))
  }

  /** What the first half did to the abort flags, in terms of the state it found. */
  ghost predicate Sieved(nodes: seq<Node>, q: Queue, level: seq<int>, placed: seq<bool>, before: seq<bool>,
      aborted: seq<bool>, top: int, same: seq<nat>)
    requires QueueOf(nodes, q) && |before| == |level|
  {
    && TopRead(level, before, TxOf(nodes, q.readers), top)
    && AbortsWriters(nodes, level, placed, top, before, aborted, TxOf(nodes, q.readers), q.writers)
    && same == Both(nodes, TxOf(nodes, q.readers), before, q.writers, |q.writers|)
  }

  /** The second half aborts all of a list but its head. */
  ghost predicate OnlyHead(nodes: seq<Node>, same: seq<nat>, before: seq<bool>, aborted: seq<bool>) {
    && |before| == |aborted| && (forall n :: n in same ==> n < |nodes|)
    && forall t: nat ::
      t < |aborted| ==> (aborted[t] <==> before[t] || (t in TxOf(nodes, same) && t != Head(nodes, same)))
  }

  lemma SieveBack(nodes: seq<Node>, q: Queue, level0: seq<int>, level: seq<int>, placed0: seq<bool>, placed: seq<bool>,
      before: seq<bool>, aborted: seq<bool>, top: int, same: seq<nat>)
    requires QueueOf(nodes, q) && |before| == |level0| == |level| && |placed0| == |nodes|
    requires PlacedAll(nodes, q.readers, before, placed0, placed)
    requires TopRead(level0, before, TxOf(nodes, q.readers), top)
    requires ReadsNumbered(level0, level, before, TxOf(nodes, q.readers), top)
    requires AbortsWriters(nodes, level, placed, top, before, aborted, TxOf(nodes, q.readers), q.writers)
    requires same == Both(nodes, TxOf(nodes, q.readers), before, q.writers, |q.writers|)
    ensures Sieved(nodes, q, level0, placed0, before, aborted, top, same)
    ensures Starts(level0, level, TxOf(nodes, q.readers))
  {
    hide TopRead; hide Both;
    forall t: nat | t < |aborted| && t !in TxOf(nodes, q.readers)
      ensures Late(nodes, level, placed, top, t) <==> Late(nodes, level0, placed0, top, t)
    {
      assert forall n :: 0 <= n < |nodes| && nodes[n].tx == t ==> n !in q.readers && placed[n] == placed0[n];
    }
  }

  lemma {:induction false} BothHas(nodes: seq<Node>, readers: set<nat>, aborted: seq<bool>, writers: seq<nat>, p: nat,
      n: nat)
    requires p <= |writers| && OnePerTx(nodes, writers)
    ensures n in Both(nodes, readers, aborted, writers, p)
      <==> exists r :: 0 <= r < p && writers[r] == n && nodes[n].tx in readers && Live(aborted, nodes[n].tx)
  {
    if p > 0 {
      BothHas(nodes, readers, aborted, writers, p - 1, n);
    }
  }

  lemma ExactAborts(nodes: seq<Node>, q: Queue, level: seq<int>, placed: seq<bool>, before: seq<bool>, mid: seq<bool>,
      aborted: seq<bool>, top: int, same: seq<nat>)
    requires QueueOf(nodes, q) && |before| == |level| && Sieved(nodes, q, level, placed, before, mid, top, same)
    requires OnlyHead(nodes, same, mid, aborted)
    ensures TopRead(level, before, TxOf(nodes, q.readers), top)
    ensures AbortsExactly(nodes, q, level, placed, before, aborted, top)
  {
    hide TopRead; hide Late;
    var readers := TxOf(nodes, q.readers);
    forall t: nat | t < |aborted|
      ensures t in TxOf(nodes, same) <==> t in TxOf(nodes, q.writers) && t in readers && Live(before, t)
    {
      if t in TxOf(nodes, same) {
        var n :| n in same && nodes[n].tx == t;
        BothHas(nodes, readers, before, q.writers, |q.writers|, n);
      }
      if t in TxOf(nodes, q.writers) && t in readers && Live(before, t) {
        var n :| n in q.writers && nodes[n].tx == t;
        BothHas(nodes, readers, before, q.writers, |q.writers|, n);
      }
    }
  }

  ghost predicate AbortsOnly(before: seq<bool>, aborted: seq<bool>, writers: set<nat>) {
    |before| == |aborted| && forall t: nat :: t < |aborted| && aborted[t] != before[t] ==> aborted[t] && t in writers
  }

  /** Every live reader has a level between one and `top`. */
  ghost predicate ReadsUpTo(level: seq<int>, aborted: seq<bool>, readers: set<nat>, top: int) {
    |aborted| == |level| && forall t :: t in readers && Live(aborted, t) ==> 1 <= level[t] <= top
  }

  ghost predicate HeadPlaced(nodes: seq<Node>, same: seq<nat>, top: int, level: seq<int>, aborted: seq<bool>,
      level': seq<int>, aborted': seq<bool>, floor: int, ceil: int) {
    && OnePerTx(nodes, same) && |aborted'| == |aborted| == |level| && |level'| == |level|
    && (forall n :: n in same ==> n < |nodes| && nodes[n].tx < |level|)
    && (same == [] ==> floor == top && ceil == (if top == 0 then INITIAL - 1 else top) && level' == level)
    && (same != []
      ==> floor == ceil == top + 1
          && level' == level[nodes[same[0]].tx := top + 1] && aborted'[nodes[same[0]].tx] == aborted[nodes[same[0]].tx])
    && (forall p :: 0 < p < |same| ==> aborted'[nodes[same[p]].tx])
    && (forall t: nat :: t < |aborted| && aborted'[t] != aborted[t] ==> aborted'[t] && t in TxOf(nodes, same))
  }

  ghost function Head(nodes: seq<Node>, same: seq<nat>): int {
    if same != [] && same[0] < |nodes| then nodes[same[0]].tx else -1
  }

  ghost function HeadSet(nodes: seq<Node>, same: seq<nat>): set<nat> {
    if same != [] && same[0] < |nodes| then {nodes[same[0]].tx} else {}
  }

  lemma TopBelow(before: seq<int>, level: seq<int>, aborted: seq<bool>, readers: set<nat>, top: int, bound: int)
    requires |aborted| == |level| == |before| && ReadsNumbered(before, level, aborted, readers, top)
    requires Below(before, bound) && bound >= INITIAL
    requires TopRead(before, aborted, readers, top)
    ensures Below(level, bound) && top <= bound && ReadsUpTo(level, aborted, readers, top)
  {
  }

  lemma ReadyToClassify(nodes: seq<Node>, q: Queue, level: seq<int>, aborted: seq<bool>, placed0: seq<bool>,
      placed: seq<bool>, top: int)
    requires QueueOf(nodes, q) && |placed0| == |nodes| && PlacedAll(nodes, q.readers, aborted, placed0, placed)
    requires ReadsUpTo(level, aborted, TxOf(nodes, q.readers), top)
    ensures forall n :: n in q.readers && Live(aborted, nodes[n].tx) ==> placed[n] && 1 <= level[nodes[n].tx] <= top
  {
  }

  /** What the first half leaves behind. */
  ghost predicate HalfSorted(nodes: seq<Node>, level: seq<int>, aborted: seq<bool>, readers: set<nat>,
      writers: seq<nat>, top: int, same: seq<nat>, bySeq: map<int, seq<nat>>) {
    && Classified(nodes, level, aborted, readers, writers, same, bySeq) && ReadsUpTo(level, aborted, readers, top)
    && OnePerTx(nodes, same) && top >= 0 && (same != [] ==> top > 0)
  }

  /** Aborting writers that do not read leaves the live readers as they are. */
  lemma ReadersKept(nodes: seq<Node>, q: Queue, level: seq<int>, placed: seq<bool>, aborted: seq<bool>,
      aborted': seq<bool>, top: int, same: seq<nat>, bySeq: map<int, seq<nat>>)
    requires QueueOf(nodes, q) && ReadsUpTo(level, aborted, TxOf(nodes, q.readers), top) && top >= 0
    requires AbortsWriters(nodes, level, placed, top, aborted, aborted', TxOf(nodes, q.readers), q.writers)
    requires Classified(nodes, level, aborted', TxOf(nodes, q.readers), q.writers, same, bySeq)
    ensures HalfSorted(nodes, level, aborted', TxOf(nodes, q.readers), q.writers, top, same, bySeq)
    ensures AbortsOnly(aborted, aborted', TxOf(nodes, q.writers))
  {
    if same != [] {
      assert same[0] in same;
    }
  }

  lemma AfterHead(nodes: seq<Node>, level: seq<int>, level': seq<int>, aborted: seq<bool>, aborted': seq<bool>,
      readers: set<nat>, writers: seq<nat>, top: int, same: seq<nat>, bySeq: map<int, seq<nat>>, keys: seq<int>,
      floor: int, ceil: int, bound: int)
    requires HalfSorted(nodes, level, aborted, readers, writers, top, same, bySeq) && Below(level, bound)
    requires top <= bound && bound >= INITIAL
    requires HeadPlaced(nodes, same, top, level, aborted, level', aborted', floor, ceil)
    ensures Ledger(level', HeadSet(nodes, same), Head(nodes, same), floor, ceil, bound)
    ensures Clear(level', HeadSet(nodes, same), keys, floor)
    ensures Kept(nodes, bySeq, level', HeadSet(nodes, same), Head(nodes, same)) && (forall s :: s in bySeq ==> s > 0)
    ensures forall t: nat :: t < |level'| && level'[t] == 0 ==> t !in HeadSet(nodes, same) && t != Head(nodes, same)
  {
    forall s | s in bySeq
      ensures Waiting(nodes, bySeq[s], level', HeadSet(nodes, same), Head(nodes, same), s)
    {
      forall p | 0 <= p < |bySeq[s]|
        ensures nodes[bySeq[s][p]].tx !in HeadSet(nodes, same) && nodes[bySeq[s][p]].tx < |level'|
        ensures level'[nodes[bySeq[s][p]].tx] == s
      {
        assert Keeps(nodes, level, aborted, readers, writers, s, bySeq[s][p]);
        assert same != [] ==> same[0] in same;
      }
    }
  }

  lemma KeysBelow(nodes: seq<Node>, level: seq<int>, aborted: seq<bool>, readers: set<nat>, writers: seq<nat>,
      top: int, same: seq<nat>, bySeq: map<int, seq<nat>>, keys: seq<int>, bound: int)
    requires HalfSorted(nodes, level, aborted, readers, writers, top, same, bySeq) && Below(level, bound)
    requires (forall s :: s in keys <==> s in bySeq)
    ensures OnePerTx(nodes, same) && top >= 0 && (same != [] ==> top > 0)
    ensures forall p :: 0 <= p < |keys| ==> keys[p] in bySeq && 0 < keys[p] <= bound
  {
    forall p | 0 <= p < |keys|
      ensures keys[p] in bySeq && 0 < keys[p] <= bound
    {
      assert keys[p] in keys;
      assert Keeps(nodes, level, aborted, readers, writers, keys[p], bySeq[keys[p]][0]);
    }
  }

  /** The course of the second half: what it starts from, the state after the head is placed
      (`level2`, `aborted`), after the unnumbered writers are numbered (`level3`, `done1`), and
      the end. */
  datatype Course = Course(nodes: seq<Node>, readers: set<nat>, writers: seq<nat>, top: int, same: seq<nat>,
    bySeq: map<int, seq<nat>>, keys: seq<int>, level1: seq<int>, aborted1: seq<bool>, level2: seq<int>,
    aborted: seq<bool>, level3: seq<int>, done1: set<nat>, level: seq<int>, done: set<nat>, floor: int, ceil0: int)

  ghost predicate Phases(x: Course) {
    && HalfSorted(x.nodes, x.level1, x.aborted1, x.readers, x.writers, x.top, x.same, x.bySeq)
    && HeadPlaced(x.nodes, x.same, x.top, x.level1, x.aborted1, x.level2, x.aborted, x.floor, x.ceil0)
    && Freed(x.nodes, x.aborted, x.writers, x.level2, x.level3, HeadSet(x.nodes, x.same), x.done1)
    && (forall s :: s in x.keys <==> s in x.bySeq)
    && AllMoved(x.nodes, x.bySeq, x.keys, |x.keys|, x.level3, x.level, x.done1, x.done)
  }

  lemma PhasesOf(x: Course)
    requires HalfSorted(x.nodes, x.level1, x.aborted1, x.readers, x.writers, x.top, x.same, x.bySeq)
    requires HeadPlaced(x.nodes, x.same, x.top, x.level1, x.aborted1, x.level2, x.aborted, x.floor, x.ceil0)
    requires Freed(x.nodes, x.aborted, x.writers, x.level2, x.level3, HeadSet(x.nodes, x.same), x.done1)
    requires forall s :: s in x.keys <==> s in x.bySeq
    requires AllMoved(x.nodes, x.bySeq, x.keys, |x.keys|, x.level3, x.level, x.done1, x.done)
    ensures Phases(x)
  {
    hide HeadPlaced; hide Freed; hide AllMoved; hide HalfSorted;
  }

  lemma QueueDone(x: Course, ceil: int, bound: int)
    requires Phases(x) && OnePerTx(x.nodes, x.writers)
    requires Ledger(x.level, x.done, Head(x.nodes, x.same), x.floor, ceil, bound) && Below(x.level1, bound)
    ensures |x.aborted| == |x.level| && QueueSorted(x.level, x.aborted, x.readers, TxOf(x.nodes, x.writers))
    ensures Below(x.level, bound + |x.writers|) && Raises(x.level1, x.level, TxOf(x.nodes, x.writers))
    ensures OnlyHead(x.nodes, x.same, x.aborted1, x.aborted) && HeadAt(x.nodes, x.same, x.level, x.top)
  {
    hide Phases; hide HeadAt; hide OnlyHead; hide AbortsOnly; hide OnePerTx; hide TxOf;
    HeadOnly(x);
    WritersDone(x, bound);
    OnlyWriters(x);
    ReadersStay(x);
    TxCount(x.nodes, x.writers, x.done);
    HeadNumber(x, ceil, bound);
    Grown(x, ceil, bound);
    forall t, u | t in x.done && u in x.readers && t != u && Live(x.aborted, u)
      ensures x.level[t] > x.level[u]
    {
      assert t == Head(x.nodes, x.same) ==> x.level[u] <= x.top;
    }
  }

  lemma WritersDone(x: Course, bound: int)
    requires Phases(x) && OnePerTx(x.nodes, x.writers) && Below(x.level1, bound)
    ensures (forall n :: n in x.writers ==> n < |x.nodes|)
    ensures forall t :: t in TxOf(x.nodes, x.writers) && Live(x.aborted, t) ==> t in x.done
  {
    hide Phases; hide Below; hide Live;
    forall t | t in TxOf(x.nodes, x.writers) && Live(x.aborted, t)
      ensures t in x.done
    {
      var n :| n in x.writers && x.nodes[n].tx == t;
      AllDone(x, bound, n);
    }
  }

  lemma HeadNumber(x: Course, ceil: int, bound: int)
    requires Phases(x) && Ledger(x.level, x.done, Head(x.nodes, x.same), x.floor, ceil, bound)
    ensures HeadAt(x.nodes, x.same, x.level, x.top)
  {
    hide HalfSorted; hide Classified;
    assert HeadSet(x.nodes, x.same) <= x.done;
  }

  /** Whoever got a new number got a higher one. */
  lemma Grown(x: Course, ceil: int, bound: int)
    requires Phases(x) && Ledger(x.level, x.done, Head(x.nodes, x.same), x.floor, ceil, bound)
    requires (forall t: nat :: t < |x.level| && x.level[t] != x.level1[t] ==> t in x.done)
    requires (forall n :: n in x.writers ==> n < |x.nodes|) && x.done <= TxOf(x.nodes, x.writers)
    ensures Raises(x.level1, x.level, TxOf(x.nodes, x.writers))
  {
    HeadGrows(x);
    hide HalfSorted; hide HeadPlaced;
    forall t: nat | t < |x.level| && x.level[t] != x.level1[t]
      ensures x.level[t] > x.level1[t]
    {
      if x.level2[t] == x.level1[t] && x.level3[t] != x.level2[t] {
        assert x.level2[t] == 0;
      }
    }
  }

  /** The head had a number up to the highest read. */
  lemma HeadGrows(x: Course)
    requires Phases(x)
    ensures |x.level1| == |x.level2| == |x.level3| == |x.level| && HeadSet(x.nodes, x.same) <= x.done1
    ensures forall t: nat :: t < |x.level1| && x.level2[t] != x.level1[t] ==>
      t in HeadSet(x.nodes, x.same) && x.level2[t] > x.level1[t]
  {
    if x.same != [] {
      assert x.same[0] in x.same;
    }
  }

  lemma HeadOnly(x: Course)
    requires Phases(x)
    ensures OnlyHead(x.nodes, x.same, x.aborted1, x.aborted)
  {
    hide HalfSorted; hide Freed; hide AllMoved;
    forall t: nat | t < |x.aborted| && t in TxOf(x.nodes, x.same) && t != Head(x.nodes, x.same)
      ensures x.aborted[t]
    {
      var n :| n in x.same && x.nodes[n].tx == t;
      var p :| 0 <= p < |x.same| && x.same[p] == n;
    }
  }

  /** Only writers were placed, and of the readers of the address only the head. */
  lemma OnlyWriters(x: Course)
    requires Phases(x) && forall n :: n in x.writers ==> n < |x.nodes|
    ensures |x.aborted1| == |x.aborted| == |x.level| == |x.level1| && x.done <= TxOf(x.nodes, x.writers)
    ensures AbortsOnly(x.aborted1, x.aborted, TxOf(x.nodes, x.writers))
    ensures forall t :: t in x.done && t in x.readers && Live(x.aborted, t) ==> t == Head(x.nodes, x.same)
    ensures forall t: nat :: t < |x.level| && x.level[t] != x.level1[t] ==> t in x.done
  {
    forall t | t in x.done
      ensures t in TxOf(x.nodes, x.writers)
      ensures t in x.readers && Live(x.aborted, t) ==> t == Head(x.nodes, x.same)
    {
      if t in HeadSet(x.nodes, x.same) {
        assert x.same[0] in x.same;
      } else if t !in x.done1 {
        var r :| 0 <= r < |x.keys| && Mentions(x.nodes, x.bySeq[x.keys[r]], |x.bySeq[x.keys[r]]|, t);
        var list := x.bySeq[x.keys[r]];
        var p :| 0 <= p < |list| && list[p] < |x.nodes| && x.nodes[list[p]].tx == t;
        assert Keeps(x.nodes, x.level1, x.aborted1, x.readers, x.writers, x.keys[r], list[p]);
      }
    }
  }

  /** Live readers other than the head stay at or below the highest read. */
  lemma ReadersStay(x: Course)
    requires Phases(x)
    requires forall t :: t in x.done && t in x.readers && Live(x.aborted, t) ==> t == Head(x.nodes, x.same)
    ensures |x.aborted| == |x.level|
    ensures x.top <= x.floor && (Head(x.nodes, x.same) >= 0 ==> x.top < x.floor)
    ensures forall u :: u in x.readers && Live(x.aborted, u) ==> 0 < x.level[u] <= x.floor
    ensures forall u :: u in x.readers && Live(x.aborted, u) && u != Head(x.nodes, x.same) ==> x.level[u] <= x.top
  {
    forall u | u in x.readers && Live(x.aborted, u)
      ensures u < |x.level| && 0 < x.level[u] <= x.floor && (u != Head(x.nodes, x.same) ==> x.level[u] <= x.top)
    {
      assert Live(x.aborted1, u);
    }
  }

  lemma {:induction false} TxCount(nodes: seq<Node>, writers: seq<nat>, done: set<nat>)
    requires (forall n :: n in writers ==> n < |nodes|) && done <= TxOf(nodes, writers)
    ensures |done| <= |writers|
  {
    if writers != [] {
      assert writers[0] in writers && forall n :: n in writers[1..] ==> n in writers;
      var t := nodes[writers[0]].tx;
      assert forall n :: n in writers ==> n == writers[0] || n in writers[1..];
      TxCount(nodes, writers[1..], done - {t});
      assert done <= (done - {t}) + {t};
      assert t in done ==> done == (done - {t}) + {t};
      assert t !in done ==> done == done - {t};
    }
  }

  /** Every live writer has been placed. */
  lemma AllDone(x: Course, bound: int, n: nat)
    requires Phases(x) && n in x.writers && n < |x.nodes| && Live(x.aborted, x.nodes[n].tx) && Below(x.level1, bound)
    ensures x.nodes[n].tx in x.done
  {
    assert HeadSet(x.nodes, x.same) <= x.done;
    var t := x.nodes[n].tx;
    assert Sorted(x.nodes, x.level1, x.aborted1, x.readers, x.same, x.bySeq, n);
    if t != Head(x.nodes, x.same) && x.level1[t] > 0 && t !in x.readers {
      var s := x.level1[t];
      var list := ListAt(x.bySeq, s);
      var p :| 0 <= p < |list| && list[p] == n;
      assert s in x.keys;
      var r :| 0 <= r < |x.keys| && x.keys[r] == s;
      assert Covered(x.nodes, x.bySeq[x.keys[r]], |x.bySeq[x.keys[r]]|, x.done);
    }
  }

  lemma AfterFree(nodes: seq<Node>, level: seq<int>, level': seq<int>, aborted: seq<bool>, writers: seq<nat>,
      bySeq: map<int, seq<nat>>, head: int, done: set<nat>, done': set<nat>)
    requires Kept(nodes, bySeq, level, done, head) && Freed(nodes, aborted, writers, level, level', done, done')
    requires (forall s :: s in bySeq ==> s > 0)
    ensures Kept(nodes, bySeq, level', done', head)
  {
    forall s | s in bySeq
      ensures Waiting(nodes, bySeq[s], level', done', head, s)
    {
      assert Waiting(nodes, bySeq[s], level, done, head, s);
    }
  }

  lemma LedgerRaise(level: seq<int>, done: set<nat>, head: int, floor: int, ceil: int, ceil': int, bound: int)
    requires Ledger(level, done, head, floor, ceil, bound) && ceil <= ceil' && (ceil' == ceil || ceil' <= bound)
    ensures Ledger(level, done, head, floor, ceil', bound)
  {
  }

  ghost predicate Ascending(keys: seq<int>) {
    forall p, r :: 0 <= p < r < |keys| ==> keys[p] < keys[r]
  }

  /** The numbers of the kept writers in increasing order. */
  method SortedKeys(numbers: set<int>) returns (keys: seq<int>)
    ensures Ascending(keys) && forall s :: s in keys <==> s in numbers
  {
    keys := [];
    var rest := numbers;
    while rest != {}
      invariant Ascending(keys) && (forall s :: s in numbers <==> s in keys || s in rest)
      invariant forall p, s :: 0 <= p < |keys| && s in rest ==> keys[p] < s
    {
      assert !forall x :: x !in rest by {
        assert (forall x :: x !in rest) ==> rest == {};
      }
      var some :| some in rest;
      HasLeast(rest, some);
      ghost var m :| LeastOf(rest, m);
      var least :| least in rest && forall s :: s in rest ==> least <= s;
      keys, rest := keys + [least], rest - {least};
    }
  }

  ghost predicate LeastOf(numbers: set<int>, m: int) {
    m in numbers && forall s :: s in numbers ==> m <= s
  }

  lemma {:induction false} HasLeast(numbers: set<int>, x: int)
    requires x in numbers
    ensures exists m :: LeastOf(numbers, m)
    decreases |numbers|
  {
    if y :| y in numbers && y < x {
      HasLeast(numbers - {x}, y);
      var m :| LeastOf(numbers - {x}, m);
      assert m <= y;
      assert LeastOf(numbers, m) by {
        forall s | s in numbers
          ensures m <= s
        {
          assert s == x || s in numbers - {x};
        }
      }
    } else {
      assert LeastOf(numbers, x);
    }
  }

  /** Writers listed under their own number, one per transaction, and not yet placed. */
  ghost predicate Waiting(nodes: seq<Node>, list: seq<nat>, level: seq<int>, done: set<nat>, head: int, raw: int) {
    && OnePerTx(nodes, list)
    && forall p :: 0 <= p < |list| ==>
      && nodes[list[p]].tx < |level| && level[nodes[list[p]].tx] == raw
      && nodes[list[p]].tx !in done && nodes[list[p]].tx != head
  }

  ghost predicate Kept(nodes: seq<Node>, bySeq: map<int, seq<nat>>, level: seq<int>, done: set<nat>, head: int) {
    forall s :: s in bySeq ==> Waiting(nodes, bySeq[s], level, done, head, s)
  }

  /** The transactions of the first `i` of a list, and nobody else, are done and may have a
      new number. */
  ghost predicate Moved(nodes: seq<Node>, list: seq<nat>, i: nat, before: seq<int>, level: seq<int>, done0: set<nat>,
      done: set<nat>) {
    && |before| == |level| && done0 <= done && Covered(nodes, list, i, done)
    && (forall t :: t in done && t !in done0 ==> Mentions(nodes, list, i, t))
    && (forall t: nat :: t < |level| && level[t] != before[t] ==> t in done && t !in done0 && level[t] > before[t])
  }

  ghost predicate Covered(nodes: seq<Node>, list: seq<nat>, i: nat, done: set<nat>) {
    i <= |list| && forall p :: 0 <= p < i ==> list[p] < |nodes| && nodes[list[p]].tx in done
  }

  ghost predicate Mentions(nodes: seq<Node>, list: seq<nat>, i: nat, t: nat) {
    i <= |list| && exists p :: 0 <= p < i && list[p] < |nodes| && nodes[list[p]].tx == t
  }

  lemma WaitNext(nodes: seq<Node>, list: seq<nat>, before: seq<int>, level: seq<int>, done0: set<nat>, done: set<nat>,
      head: int, raw: int, i: nat)
    requires Waiting(nodes, list, before, done0, head, raw) && i < |list|
    requires Moved(nodes, list, i, before, level, done0, done)
    ensures list[i] < |nodes| && nodes[list[i]].tx < |level| && nodes[list[i]].tx !in done && nodes[list[i]].tx != head
    ensures level[nodes[list[i]].tx] == raw
  {
  }

  lemma MoveNext(nodes: seq<Node>, list: seq<nat>, before: seq<int>, level: seq<int>, done0: set<nat>, done: set<nat>,
      i: nat, v: int)
    requires i < |list| && list[i] < |nodes| && nodes[list[i]].tx < |level|
    requires Moved(nodes, list, i, before, level, done0, done) && nodes[list[i]].tx !in done
    requires v >= level[nodes[list[i]].tx]
    ensures Moved(nodes, list, i + 1, before, level[nodes[list[i]].tx := v], done0, done + {nodes[list[i]].tx})
  {
    forall t | t in done && t !in done0
      ensures Mentions(nodes, list, i + 1, t)
    {
      assert Mentions(nodes, list, i, t);
    }
  }

  /** The same for the lists of the first `p` numbers. */
  ghost predicate AllMoved(nodes: seq<Node>, bySeq: map<int, seq<nat>>, keys: seq<int>, p: nat, before: seq<int>,
      level: seq<int>, done0: set<nat>, done: set<nat>) {
    && |before| == |level| && done0 <= done && p <= |keys|
    && (forall r :: 0 <= r < p ==> keys[r] in bySeq && Covered(nodes, bySeq[keys[r]], |bySeq[keys[r]]|, done))
    && (forall t ::
      t in done && t !in done0 ==> exists r :: 0 <= r < p && Mentions(nodes, bySeq[keys[r]], |bySeq[keys[r]]|, t))
    && (forall t: nat :: t < |level| && level[t] != before[t] ==> t in done && t !in done0 && level[t] > before[t])
  }

  lemma StillWaiting(nodes: seq<Node>, bySeq: map<int, seq<nat>>, keys: seq<int>, before: seq<int>, level: seq<int>,
      done0: set<nat>, done: set<nat>, head: int, floor: int, p: nat)
    requires Kept(nodes, bySeq, before, done0, head) && p < |keys| && keys[p] in bySeq && Ascending(keys)
    requires AllMoved(nodes, bySeq, keys, p, before, level, done0, done) && Clear(level, done, keys[p..], floor)
    ensures Waiting(nodes, bySeq[keys[p]], level, done, head, keys[p]) && keys[p] !in keys[p + 1..]
    ensures Clear(level, done, [keys[p]], floor) && Clear(level, done, keys[p + 1..], floor)
  {
    var list := bySeq[keys[p]];
    assert Waiting(nodes, list, before, done0, head, keys[p]);
    forall r | 0 <= r < |list|
      ensures nodes[list[r]].tx !in done
    {
    }
  }

  lemma AllMovedNone(nodes: seq<Node>, bySeq: map<int, seq<nat>>, keys: seq<int>, level: seq<int>, done: set<nat>)
    ensures AllMoved(nodes, bySeq, keys, 0, level, level, done, done)
  {
  }

  lemma AllMovedNext(nodes: seq<Node>, bySeq: map<int, seq<nat>>, keys: seq<int>, p: nat, before: seq<int>,
      level1: seq<int>, level: seq<int>, done0: set<nat>, done1: set<nat>, done: set<nat>)
    requires AllMoved(nodes, bySeq, keys, p, before, level1, done0, done1) && p < |keys| && keys[p] in bySeq
    requires Moved(nodes, bySeq[keys[p]], |bySeq[keys[p]]|, level1, level, done1, done)
    ensures AllMoved(nodes, bySeq, keys, p + 1, before, level, done0, done)
  {
  }

  /** Bookkeeping of the writers placed so far: `head`, if there is one, stands at `floor`, all
      others above it, no two alike and none above `ceil`; numbers stay near `bound`. */
  ghost predicate Ledger(level: seq<int>, done: set<nat>, head: int, floor: int, ceil: int, bound: int) {
    && 0 <= floor <= ceil <= bound + |done|
    && (forall t ::
      t in done ==>
        && t < |level| && level[t] <= ceil
        && (if t == head then level[t] == floor && floor > 0 else level[t] > floor))
    && (forall t, u :: t in done && u in done && t != u ==> level[t] != level[u])
  }

  /** Nobody placed above `floor` has one of these numbers. */
  ghost predicate Clear(level: seq<int>, done: set<nat>, rest: seq<int>, floor: int) {
    forall t :: t in done && t < |level| && level[t] > floor ==> level[t] !in rest
  }

  lemma LedgerNew(level: seq<int>, done: set<nat>, head: int, floor: int, ceil: int, bound: int, rest: seq<int>,
      t: nat, v: int)
    requires Ledger(level, done, head, floor, ceil, bound) && Clear(level, done, rest, floor)
    requires t < |level| && t !in done && t != head && v > ceil && v !in rest && (v <= ceil + 1 || v <= bound + 1)
    ensures Ledger(level[t := v], done + {t}, head, floor, v, bound) && Clear(level[t := v], done + {t}, rest, floor)
    ensures v >= 0
  {
  }

  lemma LedgerKept(level: seq<int>, done: set<nat>, head: int, floor: int, ceil: int, bound: int, rest: seq<int>,
      t: nat)
    requires t < |level| && t !in done && t != head && floor < level[t] <= ceil && level[t] !in rest
    requires Ledger(level, done, head, floor, ceil, bound) && Clear(level, done, rest, floor)
    requires Clear(level, done, [level[t]], floor)
    ensures Ledger(level, done + {t}, head, floor, ceil, bound) && Clear(level, done + {t}, rest, floor)
  {
  }

  /** The live unnumbered writers of a list, and nobody else, were numbered and are done. */
  ghost predicate Freed(nodes: seq<Node>, aborted: seq<bool>, writers: seq<nat>, before: seq<int>, level: seq<int>,
      done0: set<nat>, done: set<nat>) {
    && |before| == |level| && done0 <= done
    && (forall n :: n in writers ==>
      && n < |nodes| && nodes[n].tx < |level|
      && (Live(aborted, nodes[n].tx) && before[nodes[n].tx] == 0 ==> nodes[n].tx in done))
    && (forall t :: t in done && t !in done0 ==> t < |level| && before[t] == 0 && Live(aborted, t) && exists n ::
      n in writers && nodes[n].tx == t)
    && (forall t: nat :: t < |level| && level[t] != before[t] ==> t in done && t !in done0)
  }

  lemma FreeOne(nodes: seq<Node>, aborted: seq<bool>, writers: seq<nat>, before: seq<int>, level: seq<int>,
      done0: set<nat>, done: set<nat>, w: nat, v: int)
    requires Freed(nodes, aborted, writers, before, level, done0, done) && Next(nodes, writers, w)
    requires nodes[w].tx < |level|
    requires Live(aborted, nodes[w].tx) && before[nodes[w].tx] == 0 && nodes[w].tx !in done0
    ensures nodes[w].tx !in done
    ensures Freed(nodes, aborted, writers + [w], before, level[nodes[w].tx := v], done0, done + {nodes[w].tx})
  {
    var done', level' := done + {nodes[w].tx}, level[nodes[w].tx := v];
    forall t | t in done' && t !in done0
      ensures exists n :: n in writers + [w] && nodes[n].tx == t
    {
      if t == nodes[w].tx {
        assert w in writers + [w];
      } else {
        var n :| n in writers && nodes[n].tx == t;
        assert n in writers + [w];
      }
    }
  }

  lemma FreeSkip(nodes: seq<Node>, aborted: seq<bool>, writers: seq<nat>, before: seq<int>, level: seq<int>,
      done0: set<nat>, done: set<nat>, w: nat)
    requires Freed(nodes, aborted, writers, before, level, done0, done) && Next(nodes, writers, w)
    requires nodes[w].tx < |level|
    ensures |before| == |level|
    ensures level[nodes[w].tx] == before[nodes[w].tx]
    ensures !(Live(aborted, nodes[w].tx) && before[nodes[w].tx] == 0)
        ==> Freed(nodes, aborted, writers + [w], before, level, done0, done)
  {
  }

  function ListAt(bySeq: map<int, seq<nat>>, s: int): seq<nat> {
    if s in bySeq then bySeq[s] else []
  }

  /** Aborting writers that do not read the address leaves its readers as they were. */
  lemma StillPlaced(nodes: seq<Node>, q: Queue, placed: seq<bool>, before: seq<bool>, aborted: seq<bool>,
      done: seq<nat>, level: seq<int>, top: int)
    requires QueueOf(nodes, q) && |placed| == |nodes| && (forall n :: n in done ==> n < |nodes|)
    requires forall n :: n in q.readers && Live(before, nodes[n].tx) ==>
      placed[n] && nodes[n].tx < |level| && 1 <= level[nodes[n].tx] <= top
    requires AbortsWriters(nodes, level, placed, top, before, aborted, TxOf(nodes, q.readers), done)
    ensures forall n :: n in q.readers && Live(aborted, nodes[n].tx) ==>
      placed[n] && nodes[n].tx < |level| && 1 <= level[nodes[n].tx] <= top
  {
  }

  /** A live transaction has a placed read node on the address exactly if it reads it. */
  lemma ReaderPlaced(nodes: seq<Node>, q: Queue, placed: seq<bool>, aborted: seq<bool>, t: nat)
    requires QueueOf(nodes, q) && |placed| == |nodes| && Live(aborted, t)
    requires forall n :: n in q.readers && Live(aborted, nodes[n].tx) ==> placed[n]
    ensures t in TxOf(nodes, q.readers)
      <==> exists n :: 0 <= n < |nodes| && nodes[n].tx == t && !nodes[n].write && placed[n] && nodes[n].key == q.key
  {
    if t in TxOf(nodes, q.readers) {
      var n :| n in q.readers && nodes[n].tx == t;
    }
    if n :| 0 <= n < |nodes| && nodes[n].tx == t && !nodes[n].write && placed[n] && nodes[n].key == q.key {
      assert n in q.readers;
    }
  }

  /** A writer that must be aborted: it does not read the address, has a number at or below
      the highest read, and another of its reads is already placed. */
  ghost predicate Late(nodes: seq<Node>, level: seq<int>, placed: seq<bool>, top: int, t: nat) {
    t < |level| && 0 < level[t] <= top && HasPlacedRead(nodes, placed, t)
  }

  ghost predicate HasPlacedRead(nodes: seq<Node>, placed: seq<bool>, t: nat) {
    |placed| == |nodes| && exists n :: 0 <= n < |nodes| && nodes[n].tx == t && !nodes[n].write && placed[n]
  }

  /** The writers of the first `p` that also read the address and are live, in order. */
  ghost function Both(nodes: seq<Node>, readers: set<nat>, aborted: seq<bool>, writers: seq<nat>, p: nat): seq<nat>
    requires p <= |writers| && OnePerTx(nodes, writers)
  {
    if p == 0 then [] else
      Both(nodes, readers, aborted, writers, p - 1) + if nodes[writers[p - 1]].tx in readers
        && Live(aborted, nodes[writers[p - 1]].tx) then [writers[p - 1]] else []
  }

  lemma ReaderNumbered(nodes: seq<Node>, q: Queue, level: seq<int>, aborted: seq<bool>, top: int, t: nat)
    requires QueueOf(nodes, q)
    requires forall n ::
      n in q.readers && Live(aborted, nodes[n].tx) ==> nodes[n].tx < |level| && 1 <= level[nodes[n].tx] <= top
    ensures t in TxOf(nodes, q.readers) && Live(aborted, t) ==> t < |level| && 1 <= level[t] <= top
  {
  }

  datatype Fate = Skip | ReadsToo | Abort | Keep

  /** Unnumbered and aborted writers are skipped; of the others those that read the address
      are set aside, the late ones aborted and the rest kept. */
  ghost predicate IsFate(nodes: seq<Node>, q: Queue, level: seq<int>, placed: seq<bool>, top: int, aborted: seq<bool>,
      w: nat, fate: Fate)
    requires QueueOf(nodes, q) && w < |nodes|
  {
    var t := nodes[w].tx;
    && t < |level| == |aborted|
    && fate == if level[t] == 0 || aborted[t] then Skip else if t in TxOf(nodes, q.readers) then ReadsToo
      else if Late(nodes, level, placed, top, t) then Abort else Keep
  }

  /** After the first `p` writers. */
  ghost predicate Sifted(nodes: seq<Node>, q: Queue, level: seq<int>, placed: seq<bool>, top: int, before: seq<bool>,
      aborted: seq<bool>, p: nat, same: seq<nat>, bySeq: map<int, seq<nat>>) {
    && QueueOf(nodes, q) && p <= |q.writers|
      && AbortsWriters(nodes, level, placed, top, before, aborted, TxOf(nodes, q.readers), q.writers[..p])
    && Classified(nodes, level, aborted, TxOf(nodes, q.readers), q.writers[..p], same, bySeq)
      && same == Both(nodes, TxOf(nodes, q.readers), before, q.writers, p)
  }

  lemma NothingSifted(nodes: seq<Node>, q: Queue, level: seq<int>, placed: seq<bool>, top: int, aborted: seq<bool>)
    requires QueueOf(nodes, q)
    ensures Sifted(nodes, q, level, placed, top, aborted, aborted, 0, [], map[])
  {
    NothingClassified(nodes, level, aborted, TxOf(nodes, q.readers));
  }

  lemma SiftNext(nodes: seq<Node>, q: Queue, level: seq<int>, placed: seq<bool>, top: int, before: seq<bool>,
      aborted: seq<bool>, p: nat, same: seq<nat>, bySeq: map<int, seq<nat>>, fate: Fate)
    requires Sifted(nodes, q, level, placed, top, before, aborted, p, same, bySeq) && p < |q.writers|
    requires q.writers[p] < |nodes|
    requires IsFate(nodes, q, level, placed, top, aborted, q.writers[p], fate)
    requires forall n ::
      n in q.readers && Live(before, nodes[n].tx) ==> nodes[n].tx < |level| && 1 <= level[nodes[n].tx] <= top
    requires forall t :: 0 <= t < |level| ==> level[t] >= 0
    ensures var w, t, s := q.writers[p], nodes[q.writers[p]].tx, level[nodes[q.writers[p]].tx];
      match fate
      case Skip => Sifted(nodes, q, level, placed, top, before, aborted, p + 1, same, bySeq)
      case ReadsToo => Sifted(nodes, q, level, placed, top, before, aborted, p + 1, same + [w], bySeq)
      case Abort => Sifted(nodes, q, level, placed, top, before, aborted[t := true], p + 1, same, bySeq)
      case Keep => Sifted(nodes, q, level, placed, top, before, aborted, p + 1, same,
        bySeq[s := ListAt(bySeq, s) + [w]])
  {
    var readers, done, w := TxOf(nodes, q.readers), q.writers[..p], q.writers[p];
    var t := nodes[w].tx;
    assert q.writers[..p + 1] == done + [w];
    NotYet(nodes, level, placed, top, before, aborted, readers, q.writers, p);
    AbortGrows(nodes, level, placed, top, before, aborted, readers, done, w);
    ReaderNumbered(nodes, q, level, before, top, t);
    BothNext(nodes, readers, before, q.writers, p);
    hide Classified; hide AbortsWriters; hide Late; hide Both; hide ListAt;
    match fate
    case Skip => AddSkipped(nodes, level, aborted, readers, done, same, bySeq, w);
    case ReadsToo => AddSame(nodes, level, aborted, readers, done, same, bySeq, w);
    case Abort => AddAborted(nodes, level, aborted, readers, done, same, bySeq, w);
    case Keep => AddKept(nodes, level, aborted, readers, done, same, bySeq, w);
  }

  lemma AllSifted(nodes: seq<Node>, q: Queue, level: seq<int>, placed: seq<bool>, top: int, before: seq<bool>,
      aborted: seq<bool>, same: seq<nat>, bySeq: map<int, seq<nat>>)
    requires QueueOf(nodes, q) && Sifted(nodes, q, level, placed, top, before, aborted, |q.writers|, same, bySeq)
    ensures Classified(nodes, level, aborted, TxOf(nodes, q.readers), q.writers, same, bySeq)
    ensures AbortsWriters(nodes, level, placed, top, before, aborted, TxOf(nodes, q.readers), q.writers)
    ensures same == Both(nodes, TxOf(nodes, q.readers), before, q.writers, |q.writers|)
  {
    assert q.writers[..|q.writers|] == q.writers;
  }

  lemma BothNext(nodes: seq<Node>, readers: set<nat>, aborted: seq<bool>, writers: seq<nat>, p: nat)
    requires p < |writers| && OnePerTx(nodes, writers)
    ensures var t := nodes[writers[p]].tx;
      Both(nodes, readers, aborted, writers, p + 1) == if t in readers && Live(aborted, t) then
        Both(nodes, readers, aborted, writers, p) + [writers[p]] else Both(nodes, readers, aborted, writers, p)
  {
  }

  lemma LateIff(nodes: seq<Node>, level: seq<int>, placed: seq<bool>, top: int, t: nat, before: bool)
    requires |placed| == |nodes|
    ensures (before <==> exists n :: 0 <= n < |nodes| && nodes[n].tx == t && !nodes[n].write && placed[n])
            ==> (Late(nodes, level, placed, top, t) <==> t < |level| && 0 < level[t] <= top && before)
  {
  }

  /** Exactly the late writers of the list were aborted. */
  ghost predicate AbortsWriters(nodes: seq<Node>, level: seq<int>, placed: seq<bool>, top: int, before: seq<bool>,
      aborted: seq<bool>, readers: set<nat>, writers: seq<nat>)
    requires forall n :: n in writers ==> n < |nodes|
  {
    && |before| == |aborted|
    && forall t: nat :: t < |aborted| ==>
      (aborted[t] <==> before[t] || (t in TxOf(nodes, writers) && t !in readers && Late(nodes, level, placed, top, t)))
  }

  lemma AbortGrows(nodes: seq<Node>, level: seq<int>, placed: seq<bool>, top: int, before: seq<bool>,
      aborted: seq<bool>, readers: set<nat>, done: seq<nat>, w: nat)
    requires (forall n :: n in done ==> n < |nodes|) && w < |nodes|
    requires AbortsWriters(nodes, level, placed, top, before, aborted, readers, done)
    ensures |before| == |aborted|
    ensures var t := nodes[w].tx;
      t < |aborted| && (aborted[t] || t in readers || !Late(nodes, level, placed, top, t)) ==>
        AbortsWriters(nodes, level, placed, top, before, aborted, readers, done + [w])
    ensures var t := nodes[w].tx; t < |aborted| && t !in readers && Late(nodes, level, placed, top, t) ==>
      AbortsWriters(nodes, level, placed, top, before, aborted[t := true], readers, done + [w])
  {
    hide Late;
    assert TxOf(nodes, done + [w]) == TxOf(nodes, done) + {nodes[w].tx};
  }

  /** Where the live writers of a list went: numbered ones that also read the address, and
      numbered ones that do not, by number. */
  ghost predicate Classified(nodes: seq<Node>, level: seq<int>, aborted: seq<bool>, readers: set<nat>,
      writers: seq<nat>, same: seq<nat>, bySeq: map<int, seq<nat>>) {
    && OnePerTx(nodes, writers) && OnePerTx(nodes, same)
      && (forall s :: s in bySeq ==> OnePerTx(nodes, bySeq[s]) && bySeq[s] != [] && s > 0)
    && (forall n :: n in same ==> n in writers && n < |nodes| && nodes[n].tx in readers && Live(aborted, nodes[n].tx))
    && (forall s, n :: s in bySeq && n in bySeq[s] ==> Keeps(nodes, level, aborted, readers, writers, s, n))
    && (forall n :: n in writers ==> Sorted(nodes, level, aborted, readers, same, bySeq, n))
  }

  ghost predicate Keeps(nodes: seq<Node>, level: seq<int>, aborted: seq<bool>, readers: set<nat>, writers: seq<nat>,
      s: int, n: nat) {
    n in writers && n < |nodes| && nodes[n].tx !in readers && Live(aborted, nodes[n].tx) && nodes[n].tx < |level|
      && level[nodes[n].tx] == s
  }

  ghost predicate Sorted(nodes: seq<Node>, level: seq<int>, aborted: seq<bool>, readers: set<nat>, same: seq<nat>,
      bySeq: map<int, seq<nat>>, n: nat) {
    n < |nodes| && (Live(aborted, nodes[n].tx) && nodes[n].tx < |level| && level[nodes[n].tx] > 0 ==>
      if nodes[n].tx in readers then n in same else n in ListAt(bySeq, level[nodes[n].tx]))
  }

  lemma NothingClassified(nodes: seq<Node>, level: seq<int>, aborted: seq<bool>, readers: set<nat>)
    ensures Classified(nodes, level, aborted, readers, [], [], map[])
  {
  }

  /** The next writer belongs to a transaction not seen before. */
  ghost predicate Next(nodes: seq<Node>, done: seq<nat>, w: nat) {
    w < |nodes| && forall n :: n in done ==> n < |nodes| && nodes[n].tx != nodes[w].tx
  }

  lemma AddSkipped(nodes: seq<Node>, level: seq<int>, aborted: seq<bool>, readers: set<nat>, done: seq<nat>,
      same: seq<nat>, bySeq: map<int, seq<nat>>, w: nat)
    requires Classified(nodes, level, aborted, readers, done, same, bySeq) && Next(nodes, done, w)
    requires !Live(aborted, nodes[w].tx) || (nodes[w].tx < |level| && level[nodes[w].tx] == 0)
    ensures Classified(nodes, level, aborted, readers, done + [w], same, bySeq)
  {
  }

  lemma AddSame(nodes: seq<Node>, level: seq<int>, aborted: seq<bool>, readers: set<nat>, done: seq<nat>,
      same: seq<nat>, bySeq: map<int, seq<nat>>, w: nat)
    requires Classified(nodes, level, aborted, readers, done, same, bySeq) && Next(nodes, done, w)
    requires Live(aborted, nodes[w].tx) && nodes[w].tx in readers
    ensures Classified(nodes, level, aborted, readers, done + [w], same + [w], bySeq)
  {
  }

  lemma AddAborted(nodes: seq<Node>, level: seq<int>, aborted: seq<bool>, readers: set<nat>, done: seq<nat>,
      same: seq<nat>, bySeq: map<int, seq<nat>>, w: nat)
    requires Classified(nodes, level, aborted, readers, done, same, bySeq) && Next(nodes, done, w)
    requires nodes[w].tx < |aborted|
    ensures Classified(nodes, level, aborted[nodes[w].tx := true], readers, done + [w], same, bySeq)
  {
  }

  lemma AddKept(nodes: seq<Node>, level: seq<int>, aborted: seq<bool>, readers: set<nat>, done: seq<nat>,
      same: seq<nat>, bySeq: map<int, seq<nat>>, w: nat)
    requires Classified(nodes, level, aborted, readers, done, same, bySeq) && Next(nodes, done, w)
    requires Live(aborted, nodes[w].tx) && nodes[w].tx !in readers && nodes[w].tx < |level| && level[nodes[w].tx] > 0
    ensures var s := level[nodes[w].tx]; Classified(nodes, level, aborted, readers, done + [w], same,
        bySeq[s := ListAt(bySeq, s) + [w]])
  {
    hide Sorted; hide Keeps; hide OnePerTx; hide Live;
    var s := level[nodes[w].tx];
    var list := ListAt(bySeq, s);
    KeptList(nodes, level, aborted, readers, done, same, bySeq, w, s);
    OneMoreTx(nodes, done, w);
    var bySeq', done' := bySeq[s := list + [w]], done + [w];
    forall n | n in done'
      ensures Sorted(nodes, level, aborted, readers, same, bySeq', n)
    {
      SortedStays(nodes, level, aborted, readers, same, bySeq, w, n);
    }
    forall r, n | r in bySeq' && n in bySeq'[r]
      ensures Keeps(nodes, level, aborted, readers, done', r, n)
    {
      KeepsMore(nodes, level, aborted, readers, done, w, r, n);
    }
  }

  lemma OneMoreTx(nodes: seq<Node>, done: seq<nat>, w: nat)
    requires OnePerTx(nodes, done) && Next(nodes, done, w)
    ensures OnePerTx(nodes, done + [w])
  {
    forall p | 0 <= p < |done|
      ensures nodes[done[p]].tx != nodes[w].tx
    {
      assert done[p] in done;
    }
  }

  /** Filing `w` under its number leaves every writer filed, and files `w`. */
  lemma SortedStays(nodes: seq<Node>, level: seq<int>, aborted: seq<bool>, readers: set<nat>, same: seq<nat>,
      bySeq: map<int, seq<nat>>, w: nat, n: nat)
    requires w < |nodes| && nodes[w].tx < |level| && nodes[w].tx !in readers
    requires n == w || Sorted(nodes, level, aborted, readers, same, bySeq, n)
    ensures var s := level[nodes[w].tx];
            Sorted(nodes, level, aborted, readers, same, bySeq[s := ListAt(bySeq, s) + [w]], n)
  {
  }

  lemma KeepsMore(nodes: seq<Node>, level: seq<int>, aborted: seq<bool>, readers: set<nat>, done: seq<nat>, w: nat,
      r: int, n: nat)
    requires Keeps(nodes, level, aborted, readers, done, r, n)
      || (n == w < |nodes| && nodes[w].tx !in readers && Live(aborted, nodes[w].tx) && nodes[w].tx < |level|
        && level[nodes[w].tx] == r)
    ensures Keeps(nodes, level, aborted, readers, done + [w], r, n)
  {
  }

  lemma KeptList(nodes: seq<Node>, level: seq<int>, aborted: seq<bool>, readers: set<nat>, done: seq<nat>,
      same: seq<nat>, bySeq: map<int, seq<nat>>, w: nat, s: int)
    requires Classified(nodes, level, aborted, readers, done, same, bySeq) && Next(nodes, done, w)
    ensures OnePerTx(nodes, ListAt(bySeq, s) + [w])
  {
    var list := ListAt(bySeq, s);
    forall p | 0 <= p < |list|
      ensures list[p] < |nodes| && nodes[list[p]].tx != nodes[w].tx
    {
      assert Keeps(nodes, level, aborted, readers, done, s, list[p]);
    }
  }

  lemma NotYet(nodes: seq<Node>, level: seq<int>, placed: seq<bool>, top: int, before: seq<bool>, aborted: seq<bool>,
      readers: set<nat>, writers: seq<nat>, p: nat)
    requires OnePerTx(nodes, writers) && p < |writers|
    requires AbortsWriters(nodes, level, placed, top, before, aborted, readers, writers[..p])
    ensures Next(nodes, writers[..p], writers[p])
    ensures nodes[writers[p]].tx < |aborted| ==> aborted[nodes[writers[p]].tx] == before[nodes[writers[p]].tx]
  {
  }

  /** Every live transaction of the list without a number got `value`; nobody else changed. */
  ghost predicate Filled(nodes: seq<Node>, ids: seq<nat>, aborted: seq<bool>, before: seq<int>, level: seq<int>,
      value: int)
    requires (forall n :: n in ids ==> n < |nodes|)
  {
    && |before| == |level|
    && (forall n :: n in ids ==> nodes[n].tx < |level|)
    && (forall n :: n in ids && Live(aborted, nodes[n].tx) && before[nodes[n].tx] == 0 ==> level[nodes[n].tx] == value)
    && (forall t: nat :: t < |level| && level[t] != before[t]
          ==> before[t] == 0 && level[t] == value && t in TxOf(nodes, ids) && Live(aborted, t))
  }

  ghost predicate PlacedSome(nodes: seq<Node>, ids: seq<nat>, aborted: seq<bool>, before: seq<int>, placed0: seq<bool>,
      placed: seq<bool>)
    requires (forall n :: n in ids ==> n < |nodes|) && |placed0| == |nodes|
  {
    |placed| == |nodes| && forall n :: 0 <= n < |nodes| ==> (placed[n]
      <==> placed0[n] || (n in ids && Live(aborted, nodes[n].tx) && nodes[n].tx < |before| && before[nodes[n].tx] == 0))
  }

  /** Some live transaction of the list has no number. */
  ghost predicate Unnumbered(nodes: seq<Node>, ids: seq<nat>, aborted: seq<bool>, before: seq<int>) {
    exists n :: n in ids && n < |nodes| && Live(aborted, nodes[n].tx) && nodes[n].tx < |before|
      && before[nodes[n].tx] == 0
  }

  lemma FillOne(nodes: seq<Node>, done: seq<nat>, aborted: seq<bool>, before: seq<int>, level: seq<int>, value: int,
      w: nat)
    requires Next(nodes, done, w) && nodes[w].tx < |level| && Filled(nodes, done, aborted, before, level, value)
    requires value > 0
    ensures |before| == |level| && level[nodes[w].tx] == before[nodes[w].tx]
    ensures if Live(aborted, nodes[w].tx)
        && level[nodes[w].tx] == 0 then Filled(nodes, done + [w], aborted, before, level[nodes[w].tx := value], value)
            else Filled(nodes, done + [w], aborted, before, level, value)
    ensures Unnumbered(nodes, done + [w], aborted, before)
        <==> Unnumbered(nodes, done, aborted, before) || (Live(aborted, nodes[w].tx) && level[nodes[w].tx] == 0)
  {
    assert TxOf(nodes, done + [w]) == TxOf(nodes, done) + {nodes[w].tx};
    assert w in done + [w];
  }

  lemma PlaceOne(nodes: seq<Node>, done: seq<nat>, aborted: seq<bool>, before: seq<int>, placed0: seq<bool>,
      placed: seq<bool>, w: nat)
    requires Next(nodes, done, w) && |placed0| == |nodes| && nodes[w].tx < |before|
    requires PlacedSome(nodes, done, aborted, before, placed0, placed)
    ensures if Live(aborted, nodes[w].tx)
        && before[nodes[w].tx] == 0 then PlacedSome(nodes, done + [w], aborted, before, placed0, placed[w := true])
            else PlacedSome(nodes, done + [w], aborted, before, placed0, placed)
  {
  }

  /** What `Extremes` knows after `p` nodes. */
  ghost predicate Extreme(nodes: seq<Node>, ids: seq<nat>, p: nat, level: seq<int>, aborted: seq<bool>, low: int,
      top: int, any: bool) {
    && OnePerTx(nodes, ids) && p <= |ids| && 0 < low <= HIGHEST && top >= 0
    && (any <==> exists r :: 0 <= r < p && Numbered(level, aborted, nodes[ids[r]].tx)) && (!any ==> top == 0)
    && (forall r :: 0 <= r < p && Numbered(level, aborted, nodes[ids[r]].tx) ==> low <= level[nodes[ids[r]].tx] <= top)
    && (any ==> exists r :: 0 <= r < p && Numbered(level, aborted, nodes[ids[r]].tx) && level[nodes[ids[r]].tx] == top)
    && (low == HIGHEST || exists r ::
      0 <= r < p && Numbered(level, aborted, nodes[ids[r]].tx) && level[nodes[ids[r]].tx] == low)
  }

  lemma NoneNegative(nodes: seq<Node>, sequence: seq<int>, level: seq<int>)
    requires Uniform(nodes, sequence, level)
    ensures forall t :: 0 <= t < |level| ==> level[t] >= 0
  {
  }

  lemma NumberOf(nodes: seq<Node>, sequence: seq<int>, level: seq<int>, n: nat)
    requires Uniform(nodes, sequence, level) && n < |nodes|
    ensures n < |sequence| && nodes[n].tx < |level| && sequence[n] == level[nodes[n].tx] >= 0
  {
  }

  function Lower(v: int, w: int): int {
    if v < w then v else w
  }

  function Higher(v: int, w: int): int {
    if v > w then v else w
  }

  lemma ExtremeNext(nodes: seq<Node>, ids: seq<nat>, p: nat, level: seq<int>, aborted: seq<bool>, low: int, top: int,
      any: bool, v: int)
    requires Extreme(nodes, ids, p, level, aborted, low, top, any) && p < |ids|
    requires nodes[ids[p]].tx < |level| == |aborted| && level[nodes[ids[p]].tx] == v >= 0
    ensures if v != 0 && !aborted[nodes[ids[p]].tx] then Extreme(nodes, ids, p + 1, level, aborted, Lower(v, low),
        Higher(v, top), true)
      else Extreme(nodes, ids, p + 1, level, aborted, low, top, any)
  {
  }

  /** Exactly the numbered live ones of the first `p` nodes were newly marked placed. */
  ghost predicate PlacedNumbered(nodes: seq<Node>, ids: seq<nat>, p: nat, level: seq<int>, aborted: seq<bool>,
      placed0: seq<bool>, placed: seq<bool>) {
    && |placed| == |placed0| == |nodes| && p <= |ids|
    && forall n ::
      0 <= n < |nodes| ==> (placed[n] <==> placed0[n] || (n in ids[..p] && Numbered(level, aborted, nodes[n].tx)))
  }

  lemma NothingPlaced(nodes: seq<Node>, ids: seq<nat>, level: seq<int>, aborted: seq<bool>, placed: seq<bool>)
    requires OnePerTx(nodes, ids) && |placed| == |nodes|
    ensures Extreme(nodes, ids, 0, level, aborted, HIGHEST, 0, false)
    ensures PlacedNumbered(nodes, ids, 0, level, aborted, placed, placed)
  {
  }

  lemma InNodes(nodes: seq<Node>, ids: seq<nat>, p: nat)
    requires OnePerTx(nodes, ids) && p < |ids|
    ensures ids[p] < |nodes|
  {
  }

  lemma PlacedNext(nodes: seq<Node>, ids: seq<nat>, p: nat, level: seq<int>, aborted: seq<bool>, placed0: seq<bool>,
      placed: seq<bool>)
    requires PlacedNumbered(nodes, ids, p, level, aborted, placed0, placed) && p < |ids| && ids[p] < |nodes|
    requires nodes[ids[p]].tx < |level| == |aborted|
    ensures ids[p] < |placed|
    ensures if level[nodes[ids[p]].tx] != 0
        && !aborted[nodes[ids[p]].tx] then PlacedNumbered(nodes, ids, p + 1, level, aborted, placed0,
        placed[ids[p] := true])
      else PlacedNumbered(nodes, ids, p + 1, level, aborted, placed0, placed)
  {
    assert ids[..p + 1] == ids[..p] + [ids[p]];
  }

  lemma AllPlaced(nodes: seq<Node>, ids: seq<nat>, level: seq<int>, aborted: seq<bool>, placed0: seq<bool>,
      mid: seq<bool>, placed: seq<bool>)
    requires (forall n :: n in ids ==> n < |nodes| && nodes[n].tx < |level|) && |mid| == |nodes|
    requires PlacedNumbered(nodes, ids, |ids|, level, aborted, placed0, mid)
    requires PlacedSome(nodes, ids, aborted, level, mid, placed)
    ensures |placed0| == |nodes| && PlacedAll(nodes, ids, aborted, placed0, placed)
  {
    assert ids[..|ids|] == ids;
  }

  lemma ReadsToNumber(nodes: seq<Node>, ids: seq<nat>, level: seq<int>, aborted: seq<bool>, low: int, top: int,
      any: bool)
    requires Extreme(nodes, ids, |ids|, level, aborted, low, top, any)
    ensures low > 0
  {
  }

  lemma ReadsDone(nodes: seq<Node>, ids: seq<nat>, before: seq<int>, level: seq<int>, aborted: seq<bool>, low: int,
      highest: int, any: bool, started: bool)
    requires Extreme(nodes, ids, |ids|, before, aborted, low, highest, any)
    requires (forall n :: n in ids ==> n < |nodes| && nodes[n].tx < |level|) && |aborted| == |level|
    requires Filled(nodes, ids, aborted, before, level, if any then low else INITIAL)
    requires (started <==> Unnumbered(nodes, ids, aborted, before))
    requires forall t :: 0 <= t < |before| ==> before[t] >= 0
    ensures var top := if any then highest else if started then INITIAL else 0;
      && ReadsNumbered(before, level, aborted, TxOf(nodes, ids), top) && TopRead(before, aborted, TxOf(nodes, ids), top)
      && ReadValue(before, level, aborted, TxOf(nodes, ids), if any then low else INITIAL)
  {
  }

  /** Exactly the live nodes of the list were marked placed. */
  ghost predicate PlacedAll(nodes: seq<Node>, ids: seq<nat>, aborted: seq<bool>, placed0: seq<bool>, placed: seq<bool>)
    requires (forall n :: n in ids ==> n < |nodes|) && |placed0| == |nodes|
  {
    |placed| == |nodes| && forall n ::
      0 <= n < |nodes| ==> (placed[n] <==> placed0[n] || (n in ids && Live(aborted, nodes[n].tx)))
  }
}
