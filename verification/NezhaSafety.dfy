/** What the sequence numbers of ACG are good for: when the queues end sorted, when writers stay
    above readers, and an input on which they do not. */
module NezhaSafety {

  import opened Basics
  import opened Digraphs
  import T = Transactions
  import opened NezhaSort
  import opened NezhaOrder
  import opened NezhaPlan

  /** The queues in the order in which they are sorted. */
  ghost function Ranked(x: Numbering): (r: seq<Queue>)
    requires Ranks(x)
    ensures |r| == |x.order| && forall p :: 0 <= p < |r| ==> r[p] == x.queues[x.order[p]]
  {
    Chosen(x.queues, x.order)
  }

  // ---- From addresses to queues and back ----

  lemma {:induction false} UsedHas(block: seq<Declared>, n: nat, t: nat, k: Address)
    requires t < n <= |block| && k in block[t].readKeys + block[t].writeKeys
    ensures k in Used(block, n)
  {
    if t < n - 1 {
      UsedHas(block, n - 1, t, k);
    }
  }

  /** Every used address has its place in the ranking. */
  lemma FindQueue(block: seq<Declared>, sort: set<Address> -> seq<Address>, x: Numbering, k: Address) returns (p: nat)
    requires T.Listing(sort) && Numbers(block, sort, x) && k in Used(block, |block|)
    ensures p < |x.order| && Ranked(x)[p].key == k && QueueOf(x.nodes, Ranked(x)[p])
  {
    hide T.Listing; hide Traced; hide Starting; hide QueueOf; hide Represents; hide Greedy; hide Rounds; hide Simple;
    hide Depends; hide Used;
    T.ListingOf(sort, Used(block, |block|));
    var i :| 0 <= i < |sort(Used(block, |block|))| && sort(Used(block, |block|))[i] == k;
    GreedyComplete(x.adj, x.order, i);
    p :| 0 <= p < |x.order| && x.order[p] == i;
  }

  /** Whoever declares the address stands in its queue. */
  lemma OnQueue(block: seq<Declared>, nodes: seq<Node>, q: Queue, t: nat, write: bool)
    requires Represents(block, nodes) && QueueOf(nodes, q) && t < |block|
    requires q.key in (if write then block[t].writeKeys else block[t].readKeys)
    ensures t in TxOf(nodes, if write then q.writers else q.readers)
  {
    hide OnePerTx;
    var node := Node(t, q.key, write);
    assert node in nodes;
    var n :| 0 <= n < |nodes| && nodes[n] == node;
    assert n in if write then q.writers else q.readers;
  }

  /** And nobody else. */
  lemma OffQueue(block: seq<Declared>, nodes: seq<Node>, q: Queue, t: nat, write: bool)
    requires Represents(block, nodes) && QueueOf(nodes, q) && t in TxOf(nodes, if write then q.writers else q.readers)
    ensures t < |block| && q.key in (if write then block[t].writeKeys else block[t].readKeys)
  {
    hide OnePerTx;
    var n :| n in (if write then q.writers else q.readers) && n < |nodes| && nodes[n].tx == t;
    assert nodes[n] in nodes;
  }

  // ---- Every live transaction ends with a number ----

  lemma {:induction false} LevelsRise(nodes: seq<Node>, order: seq<Queue>, trace: seq<Marks>, n: nat, t: nat)
    requires Traced(nodes, order, trace) && n <= |order| && t < |trace[0].level|
    ensures |trace[n].level| == |trace[0].level| && trace[n].level[t] >= trace[0].level[t]
  {
    hide SortStep; hide Below;
    if n > 0 {
      LevelsRise(nodes, order, trace, n - 1, t);
      assert StepAt(nodes, order, trace, n - 1);
      StepRises(nodes, order[n - 1], trace[n - 1], trace[n], t);
    }
  }

  lemma StepRises(nodes: seq<Node>, q: Queue, m: Marks, m': Marks, t: nat)
    requires SortStep(nodes, q, m, m') && t < |m.level|
    ensures |m'.level| == |m.level| && m'.level[t] >= m.level[t]
  {
    hide Decided; hide QueueSorted; hide QueueOf; hide TxOf;
  }

  lemma Ends(block: seq<Declared>, sort: set<Address> -> seq<Address>, x: Numbering)
    requires Numbers(block, sort, x)
    ensures |x.trace| == |x.order| + 1 && Final(x) == x.trace[|x.order|]
    ensures |Final(x).level| == |Final(x).aborted| == |block|
  {
    hide SortStep; hide Below; hide Idlers;
    AbortsStay(x.nodes, Ranked(x), x.trace, |x.order|);
    if |x.order| > 0 {
      assert StepAt(x.nodes, Ranked(x), x.trace, |x.order| - 1);
      SameCounts(x.nodes, Ranked(x)[|x.order| - 1], x.trace[|x.order| - 1], Final(x));
    }
  }

  lemma SameCounts(nodes: seq<Node>, q: Queue, m: Marks, m': Marks)
    requires SortStep(nodes, q, m, m')
    ensures |m'.level| == |m'.aborted|
  {
  }

  lemma QueueSettled(block: seq<Declared>, sort: set<Address> -> seq<Address>, x: Numbering, p: nat)
    requires Numbers(block, sort, x) && p < |x.order|
    ensures x.trace != [] && Settled(x.nodes, Ranked(x), p, |x.order|, Final(x).level, Final(x).aborted)
  {
    hide Files; hide Traced; hide Starting; hide Settled;
    TraceLength(x.nodes, Ranked(x), x.trace);
    EndsSettled(x.nodes, Ranked(x), x.trace, p, |x.order|);
  }

  lemma {:induction false} NobodyElse(nodes: seq<Node>, order: seq<Queue>, trace: seq<Marks>, n: nat, t: nat)
    requires Traced(nodes, order, trace) && n <= |order| && t < |trace[0].level|
    requires forall i :: 0 <= i < |nodes| ==> nodes[i].tx != t
    ensures |trace[n].level| == |trace[0].level| && trace[n].level[t] == trace[0].level[t]
  {
    hide SortStep; hide Below;
    if n > 0 {
      NobodyElse(nodes, order, trace, n - 1, t);
      assert StepAt(nodes, order, trace, n - 1);
      StepSkips(nodes, order[n - 1], trace[n - 1], trace[n], t);
    }
  }

  lemma StepSkips(nodes: seq<Node>, q: Queue, m: Marks, m': Marks, t: nat)
    requires SortStep(nodes, q, m, m') && t < |m.level| && forall i :: 0 <= i < |nodes| ==> nodes[i].tx != t
    ensures |m'.level| == |m.level| && m'.level[t] == m.level[t]
  {
    hide Decided; hide QueueSorted;
  }

  /** A transaction without nodes keeps the initial number. */
  lemma IdleKeeps(block: seq<Declared>, sort: set<Address> -> seq<Address>, x: Numbering, t: nat)
    requires Numbers(block, sort, x) && x.trace != [] && t < |block|
    requires forall i :: 0 <= i < |x.nodes| ==> x.nodes[i].tx != t
    ensures t < |Final(x).level| && Final(x).level[t] == INITIAL
  {
    hide Traced; hide Ranks;
    assert t in Idlers(block) by { IsIdle(block, x.nodes, t); }
    hide Idlers; hide Represents;
    TraceLength(x.nodes, Ranked(x), x.trace);
    NobodyElse(x.nodes, Ranked(x), x.trace, |x.order|, t);
  }

  lemma IsIdle(block: seq<Declared>, nodes: seq<Node>, t: nat)
    requires Represents(block, nodes) && t < |block| && forall i :: 0 <= i < |nodes| ==> nodes[i].tx != t
    ensures t in Idlers(block)
  {
    forall k
      ensures k !in block[t].readKeys && k !in block[t].writeKeys
    {
      assert Node(t, k, false) !in nodes && Node(t, k, true) !in nodes;
    }
    assert Upto(|block|)[t] == t;
  }

  lemma SomeAddress(d: Declared) returns (k: Address)
    requires d.readKeys != {} || d.writeKeys != {}
    ensures k in d.readKeys + d.writeKeys
  {
    if d.readKeys != {} {
      k :| k in d.readKeys;
    } else {
      k :| k in d.writeKeys;
    }
  }

  /** So the fallback to the initial number at the end of planning is never taken. */
  lemma AllNumbered(block: seq<Declared>, sort: set<Address> -> seq<Address>, x: Numbering, t: nat)
    requires T.Listing(sort) && Numbers(block, sort, x) && t < |block| && x.trace != []
    requires Live(Final(x).aborted, t)
    ensures t < |Final(x).level| && Final(x).level[t] > 0
  {
    Ends(block, sort, x);
    if t in Idlers(block) {
      hide Files; hide Idlers; hide StepAt;
      LevelsRise(x.nodes, Ranked(x), x.trace, |x.order|, t);
    } else {
      assert t in Upto(|block|) by { assert Upto(|block|)[t] == t; }
      var k := SomeAddress(block[t]);
      UsedHas(block, |block|, t, k);
      var p := FindQueue(block, sort, x, k);
      hide Idlers; hide T.Listing; hide Traced; hide Starting; hide Ranks; hide QueueOf; hide Represents;
      QueueSettled(block, sort, x, p);
      OnQueue(block, x.nodes, Ranked(x)[p], t, k in block[t].writeKeys);
    }
  }

  // ---- Acyclic dependencies ----

  /** Every live transaction that writes an address has a higher number than every other live one
      that reads it. */
  ghost predicate WritersAbove(block: seq<Declared>, m: Marks) {
    && |m.level| == |m.aborted| == |block|
    && forall t, u, k ::
      && 0 <= t < |block| && 0 <= u < |block| && t != u && Live(m.aborted, t) && Live(m.aborted, u)
      && k in block[t].writeKeys && k in block[u].readKeys
      ==> m.level[t] > m.level[u]
  }

  /** If the ranking respects the dependencies, nobody writes an address ranked after one it
      reads. */
  lemma ReadersSteady(block: seq<Declared>, sort: set<Address> -> seq<Address>, x: Numbering, p: nat, u: nat)
    requires Numbers(block, sort, x) && Topological(x.adj, x.order) && p < |x.order| && QueueOf(x.nodes, Ranked(x)[p])
    requires u in TxOf(x.nodes, Ranked(x)[p].readers)
    ensures !WritesIn(x.nodes, Ranked(x), p + 1, |x.order|, u)
  {
    hide Traced; hide Starting; hide Files; hide Ranks; hide Topological; hide WritesAt; hide OnePerTx;
    var n :| n in Ranked(x)[p].readers && n < |x.nodes| && x.nodes[n].tx == u;
    hide QueueOf;
    forall r | p + 1 <= r < |x.order|
      ensures !WritesAt(x.nodes, Ranked(x)[r], u)
    {
      if WritesAt(x.nodes, Ranked(x)[r], u) {
        EdgeBack(x, p, r, n, u);
        assert false;
      }
    }
  }

  lemma EdgeBack(x: Numbering, p: nat, r: nat, n: nat, u: nat)
    requires Ranks(x) && Topological(x.adj, x.order) && p < |x.order| && r < |x.order| && p != r
    requires n in Ranked(x)[p].readers && n < |x.nodes| && x.nodes[n].tx == u && WritesAt(x.nodes, Ranked(x)[r], u)
    ensures r < p
  {
    GreedyDistinct(x.adj, x.order);
    hide Rounds; hide Simple; hide Greedy;
    assert Depends(x.nodes, x.queues, x.order[r], x.order[p]);
    assert x.order[p] in x.adj[x.order[r]];
  }

  /** Without a cycle among the dependencies, writers end above readers, however many addresses a
      transaction writes. */
  lemma AcyclicWritersAbove(block: seq<Declared>, sort: set<Address> -> seq<Address>, x: Numbering)
    requires T.Listing(sort) && Numbers(block, sort, x) && x.trace != [] && !Cyclic(EdgesOf(x.adj))
    ensures WritersAbove(block, Final(x))
  {
    TopologicalIffAcyclic(x.adj, x.order);
    Ends(block, sort, x);
    hide T.Listing; hide Traced; hide Starting; hide Ranks; hide Represents; hide QueueOf; hide Used; hide Topological;
    hide Cyclic; hide EdgesOf;
    forall t, u, k | 0 <= t < |block| && 0 <= u < |block| && t != u && Live(Final(x).aborted, t)
      && Live(Final(x).aborted, u) && k in block[t].writeKeys && k in block[u].readKeys
      ensures Final(x).level[t] > Final(x).level[u]
    {
      UsedHas(block, |block|, t, k);
      var p := FindQueue(block, sort, x, k);
      OnQueue(block, x.nodes, Ranked(x)[p], t, true);
      OnQueue(block, x.nodes, Ranked(x)[p], u, false);
      QueueSettled(block, sort, x, p);
      ReadersSteady(block, sort, x, p, u);
    }
  }

  // ---- Writing only the first address ----

  /** Nobody writes an address ranked after another one of theirs. */
  ghost predicate WritesFirst(block: seq<Declared>, x: Numbering)
    requires Ranks(x)
  {
    forall t, p, r ::
      && 0 <= t < |block| && 0 <= p < r < |x.order|
      && Ranked(x)[p].key in block[t].readKeys + block[t].writeKeys
      ==> Ranked(x)[r].key !in block[t].writeKeys
  }

  predicate Clash(a: Declared, b: Declared) {
    a.writeKeys * b.readKeys != {} || a.readKeys * b.writeKeys != {} || a.writeKeys * b.writeKeys != {}
  }

  /** Live transactions of one number do not conflict. */
  ghost predicate NumbersApart(block: seq<Declared>, m: Marks) {
    && |m.level| == |m.aborted| == |block|
    && forall t, u ::
      && 0 <= t < |block| && 0 <= u < |block| && t != u && Live(m.aborted, t) && Live(m.aborted, u)
      && m.level[t] == m.level[u]
      ==> !Clash(block[t], block[u])
  }

  lemma FirstUndisturbed(block: seq<Declared>, sort: set<Address> -> seq<Address>, x: Numbering, p: nat)
    requires Numbers(block, sort, x) && WritesFirst(block, x) && p < |x.order| && QueueOf(x.nodes, Ranked(x)[p])
    ensures Undisturbed(x.nodes, Ranked(x), p)
  {
    hide Traced; hide Starting; hide Represents; hide Greedy; hide Rounds; hide Simple; hide Depends; hide TxOf;
    var q := Ranked(x)[p];
    var readers, writers := TxOf(x.nodes, q.readers), TxOf(x.nodes, q.writers);
    hide QueueOf;
    forall t, r | (t in readers || t in writers) && p + 1 <= r < |x.order|
      ensures !WritesAt(x.nodes, Ranked(x)[r], t)
    {
      OffQueue(block, x.nodes, q, t, t in writers);
      WriterWrites(x.nodes, Ranked(x)[r], t);
      if WritesAt(x.nodes, Ranked(x)[r], t) {
        OffQueue(block, x.nodes, Ranked(x)[r], t, true);
      }
    }
  }

  /** Then every queue ends sorted, and transactions of one number do not conflict. */
  lemma FirstApart(block: seq<Declared>, sort: set<Address> -> seq<Address>, x: Numbering)
    requires T.Listing(sort) && Numbers(block, sort, x) && x.trace != [] && WritesFirst(block, x)
    ensures AllSorted(x) && NumbersApart(block, Final(x))
  {
    Ends(block, sort, x);
    forall p | 0 <= p < |x.order|
      ensures SortedAt(x.nodes, Ranked(x)[p], Final(x).level, Final(x).aborted)
    {
      hide Traced; hide Starting; hide WritesFirst; hide QueueOf; hide SortedAt; hide Settled;
      QueueSettled(block, sort, x, p);
      assert QueueOf(x.nodes, Ranked(x)[p]);
      FirstUndisturbed(block, sort, x, p);
      SettledIsSorted(x.nodes, Ranked(x), p, Final(x).level, Final(x).aborted);
    }
    assert AllSorted(x);
    hide T.Listing; hide Numbers; hide AllSorted; hide Clash; hide WritesFirst;
    forall t, u | 0 <= t < |block| && 0 <= u < |block| && t != u && Live(Final(x).aborted, t)
      && Live(Final(x).aborted, u) && Final(x).level[t] == Final(x).level[u]
      ensures !Clash(block[t], block[u])
    {
      NoClash(block, sort, x, t, u);
    }
  }

  ghost predicate AllSorted(x: Numbering)
    requires Ranks(x) && x.trace != []
  {
    forall p :: 0 <= p < |x.order| ==> SortedAt(x.nodes, Ranked(x)[p], Final(x).level, Final(x).aborted)
  }

  /** In sorted queues two live transactions on one address of which one writes it have different
      numbers. */
  lemma SortedDiffers(block: seq<Declared>, sort: set<Address> -> seq<Address>, x: Numbering, t: nat, u: nat,
      k: Address, write: bool)
    requires T.Listing(sort) && Numbers(block, sort, x) && x.trace != [] && t < |block| && u < |block| && t != u
    requires AllSorted(x) && Live(Final(x).aborted, t) && Live(Final(x).aborted, u)
    requires k in block[t].writeKeys && k in if write then block[u].writeKeys else block[u].readKeys
    ensures t < |Final(x).level| && u < |Final(x).level| && Final(x).level[t] != Final(x).level[u]
  {
    hide T.Listing; hide Traced; hide Starting; hide Ranks; hide Represents; hide Used; hide TxOf;
    UsedHas(block, |block|, t, k);
    var p := FindQueue(block, sort, x, k);
    var q := Ranked(x)[p];
    assert SortedAt(x.nodes, q, Final(x).level, Final(x).aborted);
    OnQueue(block, x.nodes, q, t, true);
    OnQueue(block, x.nodes, q, u, write);
  }

  lemma NoClash(block: seq<Declared>, sort: set<Address> -> seq<Address>, x: Numbering, t: nat, u: nat)
    requires T.Listing(sort) && Numbers(block, sort, x) && x.trace != [] && t < |block| && u < |block| && t != u
    requires AllSorted(x) && Live(Final(x).aborted, t) && Live(Final(x).aborted, u)
    requires t < |Final(x).level| && u < |Final(x).level| && Final(x).level[t] == Final(x).level[u]
    ensures !Clash(block[t], block[u])
  {
    hide T.Listing; hide Numbers; hide AllSorted; hide Live; hide Final;
    forall k
      ensures k !in block[t].writeKeys * block[u].readKeys && k !in block[t].readKeys * block[u].writeKeys
      ensures k !in block[t].writeKeys * block[u].writeKeys
    {
      if k in block[t].writeKeys * block[u].readKeys {
        SortedDiffers(block, sort, x, t, u, k, false);
      }
      if k in block[t].readKeys * block[u].writeKeys {
        SortedDiffers(block, sort, x, u, t, k, false);
      }
      if k in block[t].writeKeys * block[u].writeKeys {
        SortedDiffers(block, sort, x, t, u, k, true);
      }
    }
  }

  /** Transactions with one write, without a cycle among the dependencies, write their first
      address: what they read depends on it. */
  lemma OneWriteFirst(block: seq<Declared>, sort: set<Address> -> seq<Address>, x: Numbering)
    requires T.Listing(sort) && Numbers(block, sort, x) && !Cyclic(EdgesOf(x.adj))
    requires forall t, a, b :: 0 <= t < |block| && a in block[t].writeKeys && b in block[t].writeKeys ==> a == b
    ensures WritesFirst(block, x)
  {
    TopologicalIffAcyclic(x.adj, x.order);
    hide Cyclic; hide EdgesOf; hide Traced; hide Starting; hide QueueOf; hide Topological; hide Simple; hide Depends;
    hide Represents; hide Used; hide Greedy; hide Rounds;
    forall t, p, r | 0 <= t < |block| && 0 <= p < r < |x.order|
      && Ranked(x)[p].key in block[t].readKeys + block[t].writeKeys
      ensures Ranked(x)[r].key !in block[t].writeKeys
    {
      if Ranked(x)[r].key in block[t].writeKeys {
        KeysDiffer(block, sort, x, p, r);
        OnQueue(block, x.nodes, Ranked(x)[p], t, false);
        OnQueue(block, x.nodes, Ranked(x)[r], t, true);
        ReadersSteady(block, sort, x, p, t);
        WriterWrites(x.nodes, Ranked(x)[r], t);
        assert false;
      }
    }
  }

  lemma KeysDiffer(block: seq<Declared>, sort: set<Address> -> seq<Address>, x: Numbering, p: nat, r: nat)
    requires T.Listing(sort) && Numbers(block, sort, x) && p < r < |x.order|
    ensures Ranked(x)[p].key != Ranked(x)[r].key
  {
    hide Traced; hide Starting; hide QueueOf; hide Simple; hide Depends; hide Represents; hide Rounds; hide T.Listing;
    GreedyDistinct(x.adj, x.order);
    hide Greedy;
    T.ListingOf(sort, Used(block, |block|));
  }

  // ---- A queue that does not stay sorted ----

  /** The first transaction writes `a`; the second reads and writes `a` and `b`. */
  function Twist(a: Address, b: Address): seq<Declared> {
    [Declared({}, {a}), Declared({a, b}, {a, b})]
  }

  lemma TwistUsed(a: Address, b: Address)
    ensures |Twist(a, b)| == 2 && Used(Twist(a, b), 2) == {a, b} && Idlers(Twist(a, b)) == {}
  {
    var block := Twist(a, b);
    assert Used(block, 0) == {} && Used(block, 1) == {a};
  }

  /** The members of a queue are the transactions that declare its address. */
  lemma Members(block: seq<Declared>, nodes: seq<Node>, q: Queue, ids: seq<nat>, write: bool)
    requires Represents(block, nodes) && QueueOf(nodes, q) && ids == if write then q.writers else q.readers
    ensures (forall n :: n in ids ==> n < |nodes|) && |ids| == |TxOf(nodes, ids)|
    ensures forall t: nat ::
      t in TxOf(nodes, ids) <==> t < |block| && q.key in (if write then block[t].writeKeys else block[t].readKeys)
  {
    OneEach(nodes, ids);
    forall t: nat
      ensures t in TxOf(nodes, ids)
        <==> t < |block| && q.key in (if write then block[t].writeKeys else block[t].readKeys)
    {
      hide QueueOf; hide Represents; hide TxOf;
      if t in TxOf(nodes, ids) {
        OffQueue(block, nodes, q, t, write);
      }
      if t < |block| && q.key in (if write then block[t].writeKeys else block[t].readKeys) {
        OnQueue(block, nodes, q, t, write);
      }
    }
  }

  /** Its queues: both transactions write `a`, the second reads it, and only the second is on `b`. */
  lemma TwistQueues(a: Address, b: Address, nodes: seq<Node>, q: Queue)
    requires a != b && Represents(Twist(a, b), nodes) && QueueOf(nodes, q)
    ensures q.key == a ==> TxOf(nodes, q.readers) == {1} && TxOf(nodes, q.writers) == {0, 1} && |q.writers| == 2
    ensures q.key == b ==> TxOf(nodes, q.readers) == {1} && TxOf(nodes, q.writers) == {1} && |q.writers| == 1
  {
    hide Represents; hide QueueOf; hide TxOf;
    Members(Twist(a, b), nodes, q, q.readers, false);
    Members(Twist(a, b), nodes, q, q.writers, true);
    var readers, writers := TxOf(nodes, q.readers), TxOf(nodes, q.writers);
    if q.key == a {
      assert readers == {1} && writers == {0, 1};
    } else if q.key == b {
      assert readers == {1} && writers == {1};
    }
  }

  lemma OneEach(nodes: seq<Node>, ids: seq<nat>)
    requires OnePerTx(nodes, ids)
    ensures (forall n :: n in ids ==> n < |nodes|) && |TxOf(nodes, ids)| == |ids|
  {
    var txs := seq(|ids|, p requires 0 <= p < |ids| => nodes[ids[p]].tx);
    forall t
      ensures t in txs <==> t in TxOf(nodes, ids)
    {
      if t in TxOf(nodes, ids) {
        var n :| n in ids && nodes[n].tx == t;
        var p :| 0 <= p < |ids| && ids[p] == n;
        assert txs[p] == t;
      }
    }
    DistinctCount(txs, TxOf(nodes, ids));
  }

  /** The two queues depend on each other; the cycle is broken at the first. */
  lemma TwistRanking(a: Address, b: Address, sort: set<Address> -> seq<Address>, x: Numbering)
    requires a != b && Numbers(Twist(a, b), sort, x) && sort({a, b}) == [a, b]
    ensures |x.queues| == 2 && x.queues[0].key == a && x.queues[1].key == b && x.order == [0, 1]
    ensures QueueOf(x.nodes, x.queues[0]) && QueueOf(x.nodes, x.queues[1])
  {
    TwistUsed(a, b);
    hide Traced; hide Starting;
    assert Files(Twist(a, b), sort, x);
    TwistQueues(a, b, x.nodes, x.queues[0]);
    TwistQueues(a, b, x.nodes, x.queues[1]);
    TwistDepends(x.nodes, x.queues);
    assert 1 in x.adj[0] && 0 in x.adj[1];
    hide Files; hide Depends; hide QueueOf;
    MutualOrder(x.adj, x.order, x.starts);
  }

  lemma TwistDepends(nodes: seq<Node>, queues: seq<Queue>)
    requires |queues| == 2 && QueueOf(nodes, queues[0]) && QueueOf(nodes, queues[1])
    requires 1 in TxOf(nodes, queues[0].readers) && 1 in TxOf(nodes, queues[0].writers)
    requires 1 in TxOf(nodes, queues[1].readers) && 1 in TxOf(nodes, queues[1].writers)
    ensures Depends(nodes, queues, 0, 1) && Depends(nodes, queues, 1, 0)
  {
    hide OnePerTx;
    var r0 :| r0 in queues[0].readers && nodes[r0].tx == 1;
    var w0 :| w0 in queues[0].writers && nodes[w0].tx == 1;
    var r1 :| r1 in queues[1].readers && nodes[r1].tx == 1;
    var w1 :| w1 in queues[1].writers && nodes[w1].tx == 1;
    hide QueueOf;
  }

  /** Two queues that lead to each other are ranked by their position. */
  lemma MutualOrder(adj: seq<seq<nat>>, order: seq<nat>, starts: seq<nat>)
    requires |adj| == 2 && Simple(adj) && 1 in adj[0] && 0 in adj[1]
    requires |order| == 2 && Greedy(adj, order) && Rounds(adj, order, starts)
    ensures order == [0, 1]
  {
    GreedyDistinct(adj, order);
    MutualRound(adj, order, starts);
  }

  lemma MutualRound(adj: seq<seq<nat>>, order: seq<nat>, starts: seq<nat>)
    requires |adj| == 2 && Simple(adj) && 1 in adj[0] && 0 in adj[1]
    requires |order| == 2 && Distinct(2, order) && Rounds(adj, order, starts)
    ensures order[0] == 0
  {
    hide Simple; hide Round; hide Distinct;
    assert RoundAt(adj, order, starts, 0);
    assert Left(2, order, 0) == {0, 1};
    MutualDegrees(adj);
    MutualFirst(adj, order[0..starts[1]]);
  }

  /** Neither is free, both have one predecessor and one successor, and the first is taken. */
  lemma MutualFirst(adj: seq<seq<nat>>, batch: seq<nat>)
    requires adj == [[1], [0]] && Round(adj, {0, 1}, batch)
    ensures batch[0] == 0
  {
    var live := {0, 1};
    assert Into(adj, live, 0) == {1} && Into(adj, live, 1) == {0};
    hide Into;
    assert !SomeOpen(adj, live);
    assert Least(adj, live, 0) && Least(adj, live, 1);
  }

  lemma MutualDegrees(adj: seq<seq<nat>>)
    requires |adj| == 2 && Simple(adj) && 1 in adj[0] && 0 in adj[1]
    ensures adj == [[1], [0]]
  {
    forall i | 0 <= i < 2
      ensures adj[i] == [1 - i]
    {
      assert forall p :: 0 <= p < |adj[i]| ==> adj[i][p] == 1 - i;
      DistinctCount(adj[i], {1 - i});
    }
  }

  /** A single reader decides the highest read. */
  lemma OneReader(level: seq<int>, aborted: seq<bool>, t: nat, top: int)
    requires |aborted| == |level| && t < |level| && Live(aborted, t) && TopRead(level, aborted, {t}, top)
    ensures top == if level[t] == 0 then INITIAL else level[t]
  {
    assert t in {t} && (Numbered(level, aborted, t) <==> level[t] != 0);
  }

  /** Sorting `a` numbers the reader 11 and the other writer 12. */
  lemma TwistFirst(nodes: seq<Node>, q: Queue, m: Marks, m': Marks)
    requires SortStep(nodes, q, m, m') && TxOf(nodes, q.readers) == {1} && TxOf(nodes, q.writers) == {0, 1}
    requires m.level == [0, 0] && m.aborted == [false, false] && Below(m'.level, 12)
    ensures m'.level == [12, 11] && m'.aborted == [false, false]
  {
    hide QueueResult;
    var top, value, keys :| Decided(nodes, q, m, m', top) && QueueResult(nodes, q, m, m', top, value, keys);
    OneReader(m.level, m.aborted, 1, top);
    OnlyHeadIs(nodes, q, m.aborted, 1);
    assert !Loses(nodes, q, m.level, m.placed, m.aborted, top, 0);
    assert !Loses(nodes, q, m.level, m.placed, m.aborted, top, 1);
    assert m'.level[0] > m'.level[1];
  }

  /** Sorting `b` raises the second transaction to 12 as well. */
  lemma TwistSecond(nodes: seq<Node>, q: Queue, m: Marks, m': Marks)
    requires SortStep(nodes, q, m, m') && TxOf(nodes, q.readers) == {1} && TxOf(nodes, q.writers) == {1}
    requires m.level == [12, 11] && m.aborted == [false, false]
    ensures m'.level == [12, 12] && m'.aborted == [false, false]
  {
    hide QueueResult;
    var top, value, keys :| Decided(nodes, q, m, m', top) && QueueResult(nodes, q, m, m', top, value, keys);
    OneReader(m.level, m.aborted, 1, top);
    OnlyHeadIs(nodes, q, m.aborted, 1);
    assert !Loses(nodes, q, m.level, m.placed, m.aborted, top, 0);
    assert !Loses(nodes, q, m.level, m.placed, m.aborted, top, 1);
  }

  /** If `t` alone both reads and writes the address, and is live, it is the head. */
  lemma OnlyHeadIs(nodes: seq<Node>, q: Queue, aborted: seq<bool>, t: nat)
    requires QueueOf(nodes, q) && TxOf(nodes, q.readers) == {t} && t in TxOf(nodes, q.writers) && Live(aborted, t)
    ensures Head(nodes, Heads(nodes, q, aborted)) == t
  {
    var same := Heads(nodes, q, aborted);
    var n :| n in q.writers && nodes[n].tx == t;
    BothHas(nodes, {t}, aborted, q.writers, |q.writers|, n);
    var r :| 0 <= r < |q.writers| && q.writers[r] == n;
    assert n in same;
    BothHas(nodes, {t}, aborted, q.writers, |q.writers|, same[0]);
  }

  /** The first queue ends unsorted: its two live writers, one of which reads the address, have the
      same number. */
  lemma TwistUnsorted(a: Address, b: Address, sort: set<Address> -> seq<Address>, x: Numbering)
    requires a != b && Numbers(Twist(a, b), sort, x) && sort({a, b}) == [a, b]
    ensures x.trace != [] && Final(x).level == [12, 12] && Final(x).aborted == [false, false]
    ensures x.order == [0, 1] && |x.queues| == 2 && !SortedAt(x.nodes, x.queues[0], Final(x).level, Final(x).aborted)
  {
    hide Traced; hide Ranks; hide Represents; hide QueueOf; hide Starting; hide SortStep; hide TxOf; hide Twist;
    hide QueueSorted; hide Below;
    TwistRanking(a, b, sort, x);
    TwistQueues(a, b, x.nodes, x.queues[0]);
    TwistQueues(a, b, x.nodes, x.queues[1]);
    var order := Ranked(x);
    TwistTrace(x.nodes, order, x.trace);
    TwistStart(a, b, x.trace[0]);
    TwistFirst(x.nodes, order[0], x.trace[0], x.trace[1]);
    TwistSecond(x.nodes, order[1], x.trace[1], x.trace[2]);
    TwistTied(x.nodes, x.queues[0], Final(x));
  }

  lemma TwistStart(a: Address, b: Address, m: Marks)
    requires Starting(Twist(a, b), m)
    ensures m.level == [0, 0] && m.aborted == [false, false]
  {
    TwistUsed(a, b);
    hide Twist; hide Idlers;
  }

  lemma TwistTied(nodes: seq<Node>, q: Queue, m: Marks)
    requires QueueOf(nodes, q) && TxOf(nodes, q.writers) == {0, 1} && m.level == [12, 12] && m.aborted == [false, false]
    ensures !SortedAt(nodes, q, m.level, m.aborted)
  {
    hide TxOf;
    assert Live(m.aborted, 0) && Live(m.aborted, 1) && 0 in TxOf(nodes, q.writers) && 1 in TxOf(nodes, q.writers);
  }

  lemma TwistTrace(nodes: seq<Node>, order: seq<Queue>, trace: seq<Marks>)
    requires Traced(nodes, order, trace) && |order| == 2 && |order[0].writers| == 2
    ensures |trace| == 3 && SortStep(nodes, order[0], trace[0], trace[1]) && Below(trace[1].level, 12)
    ensures SortStep(nodes, order[1], trace[1], trace[2])
  {
    hide SortStep;
    assert StepAt(nodes, order, trace, 0) && StepAt(nodes, order, trace, 1);
    assert Writes(order, 1) == Writes(order, 0) + 2;
  }
}
