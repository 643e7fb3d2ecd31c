/** The ACG plan is a function of the block and the order in which addresses are listed: the
    nodes, the queues, their ranking and the sequence numbers all are. */
module NezhaUnique {
  import opened Basics
  import opened NezhaSort
  import opened Digraphs
  import opened NezhaOrder
  import opened NezhaPlan
  import NezhaNumbers

  lemma SameQueue(nodes: seq<Node>, q: Queue, q': Queue)
    requires Filed(nodes, q) && Filed(nodes, q') && q.key == q'.key
    ensures q == q'
  {
    NezhaNumbers.SameKeys(q.readers, q'.readers);
    NezhaNumbers.SameKeys(q.writers, q'.writers);
  }

  /** Successor lists that list the same. */
  ghost predicate Alike(adj: seq<seq<nat>>, adj': seq<seq<nat>>) {
    && |adj| == |adj'| && Simple(adj) && Simple(adj')
    && forall i, j :: 0 <= i < |adj| ==> (j in adj[i] <==> j in adj'[i])
  }

  lemma SameDegree(adj: seq<seq<nat>>, adj': seq<seq<nat>>, i: nat)
    requires Alike(adj, adj') && i < |adj|
    ensures |adj[i]| == |adj'[i]|
  {
    var all := set j | j in adj[i];
    DistinctCount(adj[i], all);
    DistinctCount(adj'[i], all);
  }

  lemma SameInto(adj: seq<seq<nat>>, adj': seq<seq<nat>>, live: set<nat>, v: nat)
    requires Alike(adj, adj')
    ensures Into(adj, live, v) == Into(adj', live, v)
  {
  }

  lemma SameLeast(adj: seq<seq<nat>>, adj': seq<seq<nat>>, live: set<nat>, x: nat)
    requires Alike(adj, adj')
    ensures Least(adj, live, x) <==> Least(adj', live, x)
    ensures Open(adj, live, x) <==> Open(adj', live, x)
  {
    forall v
      ensures Into(adj, live, v) == Into(adj', live, v)
    {
      SameInto(adj, adj', live, v);
    }
    hide Into;
  }

  /** What a round takes is settled. */
  lemma SameRound(adj: seq<seq<nat>>, adj': seq<seq<nat>>, live: set<nat>, batch: seq<nat>, batch': seq<nat>)
    requires Alike(adj, adj') && forall v :: v in live ==> v < |adj|
    requires Round(adj, live, batch) && Round(adj', live, batch')
    ensures batch == batch'
  {
    forall v
      ensures Open(adj, live, v) <==> Open(adj', live, v)
    {
      SameLeast(adj, adj', live, v);
    }
    hide Open; hide Simple; hide Alike; hide Breaks;
    if SomeOpen(adj, live) {
      NezhaNumbers.SameKeys(batch, batch');
    } else {
      SameBreak(adj, adj', live, batch[0], batch'[0]);
    }
  }

  lemma SameBreak(adj: seq<seq<nat>>, adj': seq<seq<nat>>, live: set<nat>, x: nat, x': nat)
    requires Alike(adj, adj') && forall v :: v in live ==> v < |adj|
    requires Breaks(adj, live, x) && Breaks(adj', live, x')
    ensures x == x'
  {
    SameLeast(adj, adj', live, x);
    SameLeast(adj, adj', live, x');
    SameDegree(adj, adj', x);
    SameDegree(adj, adj', x');
    hide Simple; hide Into;
  }

  lemma OneRound(adj: seq<seq<nat>>, adj': seq<seq<nat>>, order: seq<nat>, order': seq<nat>, lo: nat, hi: nat,
      hi': nat)
    requires Alike(adj, adj') && lo < hi <= |order| && lo < hi' <= |order'| && order[..lo] == order'[..lo]
    requires Round(adj, Left(|adj|, order, lo), order[lo..hi]) && Round(adj', Left(|adj|, order', lo), order'[lo..hi'])
    ensures hi == hi' && order[..hi] == order'[..hi]
  {
    hide Round; hide Alike;
    SameLeft(|adj|, order[..lo], order[lo..], lo);
    SameLeft(|adj|, order'[..lo], order'[lo..], lo);
    assert order == order[..lo] + order[lo..] && order' == order'[..lo] + order'[lo..];
    SameRound(adj, adj', Left(|adj|, order, lo), order[lo..hi], order'[lo..hi']);
    assert order[..hi] == order[..lo] + order[lo..hi] && order'[..hi'] == order'[..lo] + order'[lo..hi'];
  }

  lemma {:induction false} SameRounds(adj: seq<seq<nat>>, adj': seq<seq<nat>>, order: seq<nat>, order': seq<nat>,
      starts: seq<nat>, starts': seq<nat>, k: nat)
    requires Alike(adj, adj') && Rounds(adj, order, starts) && Rounds(adj', order', starts')
    requires k < |starts| && k < |starts'|
    ensures starts[k] == starts'[k] <= |order| && starts[k] <= |order'| && order[..starts[k]] == order'[..starts[k]]
  {
    hide Round; hide Alike; hide Left;
    if k > 0 {
      SameRounds(adj, adj', order, order', starts, starts', k - 1);
      assert RoundAt(adj, order, starts, k - 1) && RoundAt(adj', order', starts', k - 1);
      SameSize(adj, adj');
      OneRound(adj, adj', order, order', starts[k - 1], starts[k], starts'[k]);
    }
  }

  lemma SameSize(adj: seq<seq<nat>>, adj': seq<seq<nat>>)
    requires Alike(adj, adj')
    ensures |adj| == |adj'|
  {
  }

  lemma SameOrder(adj: seq<seq<nat>>, adj': seq<seq<nat>>, order: seq<nat>, order': seq<nat>, starts: seq<nat>,
      starts': seq<nat>)
    requires Alike(adj, adj') && Rounds(adj, order, starts) && Rounds(adj', order', starts') && |order| == |order'|
    ensures order == order'
  {
    var k := if |starts| <= |starts'| then |starts| - 1 else |starts'| - 1;
    SameRounds(adj, adj', order, order', starts, starts', k);
    assert order[..|order|] == order && order'[..|order'|] == order';
  }

  lemma SameFiles(block: seq<Declared>, sort: set<Address> -> seq<Address>, x: Numbering, y: Numbering)
    requires Files(block, sort, x) && Files(block, sort, y)
    ensures x.nodes == y.nodes && x.queues == y.queues
  {
    hide Represents; hide QueueOf; hide Filed; hide NodesOf; hide Used;
    forall i | 0 <= i < |x.queues|
      ensures x.queues[i] == y.queues[i]
    {
      SameQueue(x.nodes, x.queues[i], y.queues[i]);
    }
  }

  lemma SameRanking(x: Numbering, y: Numbering)
    requires Ranks(x) && Ranks(y) && x.nodes == y.nodes && x.queues == y.queues
    ensures x.order == y.order
  {
    hide Depends; hide Rounds; hide Greedy; hide Simple;
    assert Alike(x.adj, y.adj);
    SameOrder(x.adj, y.adj, x.order, y.order, x.starts, y.starts);
  }

  lemma SameStart(block: seq<Declared>, nodes: seq<Node>, m: Marks, m': Marks)
    requires Starting(block, m) && Starting(block, m') && Unmarked(nodes, m) && Unmarked(nodes, m')
    ensures m == m'
  {
    hide Idlers;
  }

  /** One block, one listing of its addresses: one numbering. */
  lemma NumbersDecide(block: seq<Declared>, sort: set<Address> -> seq<Address>, x: Numbering, y: Numbering)
    requires Numbers(block, sort, x) && Numbers(block, sort, y)
    ensures x.nodes == y.nodes && x.queues == y.queues && x.order == y.order && x.trace == y.trace
  {
    hide Files; hide Starting; hide Unmarked;
    SameFiles(block, sort, x, y);
    SameRanking(x, y);
    SameStart(block, x.nodes, x.trace[0], y.trace[0]);
    hide Ranks;
    NezhaNumbers.RunDecides(x.nodes, Chosen(x.queues, x.order), x.trace, y.trace);
  }
}
