/** Nezha's address-based conflict graph: the nodes and queues of a block's declared accesses, and
    the plan built on them. */
module NezhaPlan {

  import opened Basics
  import T = Transactions
  import opened NezhaSort
  import opened NezhaOrder

  /** The addresses a transaction declares. */
  datatype Declared = Declared(readKeys: set<Address>, writeKeys: set<Address>)

  ghost predicate Accesses(block: seq<Declared>, n: Node) {
    n.tx < |block| && n.key in (if n.write then block[n.tx].writeKeys else block[n.tx].readKeys)
  }

  /** The queue lists the read and the write nodes of its address in the order of their making. */
  ghost predicate Filed(nodes: seq<Node>, q: Queue) {
    && (forall n: nat :: n in q.readers <==> n < |nodes| && nodes[n].key == q.key && !nodes[n].write)
    && (forall n: nat :: n in q.writers <==> n < |nodes| && nodes[n].key == q.key && nodes[n].write)
    && Rising(q.readers) && Rising(q.writers)
  }

  ghost predicate Rising(ids: seq<nat>) {
    forall p, r :: 0 <= p < r < |ids| ==> ids[p] < ids[r]
  }

  ghost predicate Unrepeated(nodes: seq<Node>) {
    forall m, n :: 0 <= m < n < |nodes| ==> nodes[m] != nodes[n]
  }

  /** Every node is in the queue of its address, and no two nodes are the same access. */
  ghost predicate Queued(nodes: seq<Node>, queues: map<Address, Queue>) {
    && Unrepeated(nodes) && (forall n :: 0 <= n < |nodes| ==> nodes[n].key in queues)
    && (forall a :: a in queues ==> queues[a].key == a && Filed(nodes, queues[a]))
  }

  function NewQueue(queues: map<Address, Queue>, a: Address): Queue {
    if a in queues then queues[a] else Queue(a, [], [])
  }

  function WithNode(nodes: seq<Node>, q: Queue, node: Node): Queue {
    if node.write then q.(writers := q.writers + [|nodes|]) else q.(readers := q.readers + [|nodes|])
  }

  lemma FiledMore(nodes: seq<Node>, q: Queue, node: Node)
    requires Filed(nodes, q)
    ensures node.key == q.key ==> Filed(nodes + [node], WithNode(nodes, q, node))
    ensures node.key != q.key ==> Filed(nodes + [node], q)
  {
    var more := nodes + [node];
    assert forall n :: 0 <= n < |nodes| ==> more[n] == nodes[n];
    assert more[|nodes|] == node;
    assert forall p :: 0 <= p < |q.readers| ==> q.readers[p] in q.readers;
    assert forall p :: 0 <= p < |q.writers| ==> q.writers[p] in q.writers;
  }

  lemma FiledNone(nodes: seq<Node>, a: Address)
    requires forall n :: 0 <= n < |nodes| ==> nodes[n].key != a
    ensures Filed(nodes, Queue(a, [], []))
  {
  }

  /** Makes one node and files it. */
  method AddNode(nodes: seq<Node>, queues: map<Address, Queue>, node: Node) returns (queues': map<Address, Queue>)
    requires Queued(nodes, queues) && node !in nodes
    ensures Queued(nodes + [node], queues') && queues'.Keys == queues.Keys + {node.key}
  {
    hide Filed;
    var q := NewQueue(queues, node.key);
    queues' := queues[node.key := WithNode(nodes, q, node)];
    if node.key !in queues {
      FiledNone(nodes, node.key);
    }
    forall a | a in queues'
      ensures queues'[a].key == a && Filed(nodes + [node], queues'[a])
    {
      FiledMore(nodes, if a == node.key then q else queues[a], node);
    }
    assert forall n :: 0 <= n < |nodes| ==> (nodes + [node])[n] == nodes[n] && nodes[n] in nodes;
  }

  /** The nodes are exactly the accesses of the transactions before `i`, and those of `i` to the
      first `p` of `keys`. */
  ghost predicate Exact(block: seq<Declared>, nodes: seq<Node>, i: nat, keys: seq<Address>, p: nat)
    requires p <= |keys|
  {
    forall n :: n in nodes
      <==> Accesses(block, n) && (n.tx < i || (n.tx == i && exists r :: 0 <= r < p && keys[r] == n.key))
  }

  /** The nodes made since `mark` are those of transaction `i`. */
  ghost predicate Mine(nodes: seq<Node>, mark: nat, mine: seq<nat>, i: nat) {
    && mark <= |nodes| && |mine| == |nodes| - mark && (forall p :: 0 <= p < |mine| ==> mine[p] == mark + p)
    && (forall n :: 0 <= n < |nodes| ==> if n < mark then nodes[n].tx < i else nodes[n].tx == i)
  }

  lemma MineMore(nodes: seq<Node>, mark: nat, mine: seq<nat>, i: nat, node: Node)
    requires Mine(nodes, mark, mine, i) && node.tx == i
    ensures Mine(nodes + [node], mark, mine + [|nodes|], i)
  {
  }

  lemma MineLists(nodes: seq<Node>, mark: nat, mine: seq<nat>, own: seq<seq<nat>>, i: nat)
    requires Mine(nodes, mark, mine, i) && |own| == i && Tables(nodes[..mark], own)
    ensures Tables(nodes, own + [mine])
  {
    var all := own + [mine];
    forall n: nat | n < |nodes| && nodes[n].tx == i
      ensures n in mine
    {
      assert mine[n - mark] == n;
    }
    forall t: nat | t < |all|
      ensures Lists(nodes, all[t], t)
    {
      if t < i {
        assert Lists(nodes[..mark], own[t], t);
      }
    }
  }

  lemma ExactStep(block: seq<Declared>, nodes: seq<Node>, i: nat, keys: seq<Address>, p: nat, more: seq<Node>)
    requires p < |keys| && i < |block| && Exact(block, nodes, i, keys, p)
    requires (forall r :: 0 <= r < p ==> keys[r] != keys[p])
    requires forall n :: n in more <==> n in nodes || (n.tx == i && n.key == keys[p] && n.key in (if n.write
      then block[i].writeKeys else block[i].readKeys))
    ensures Exact(block, more, i, keys, p + 1)
  {
    forall n
      ensures n in more
        <==> Accesses(block, n) && (n.tx < i || (n.tx == i && exists r :: 0 <= r < p + 1 && keys[r] == n.key))
    {
      if n.tx == i && exists r :: 0 <= r < p + 1 && keys[r] == n.key {
        var r :| 0 <= r < p + 1 && keys[r] == n.key;
      }
      if n.tx == i && n.key == keys[p] {
        assert keys[p] == n.key;
      }
    }
  }

  lemma ExactDone(block: seq<Declared>, nodes: seq<Node>, i: nat, keys: seq<Address>)
    requires i < |block| && Exact(block, nodes, i, keys, |keys|)
    requires forall k :: k in keys <==> k in block[i].readKeys + block[i].writeKeys
    ensures Exact(block, nodes, i + 1, [], 0)
  {
    forall n
      ensures n in nodes <==> Accesses(block, n) && n.tx < i + 1
    {
      if Accesses(block, n) && n.tx == i {
        assert n.key in keys;
      }
    }
  }

  /** The nodes of transaction `i` for one address: a read before a write. */
  ghost function NodesAt(d: Declared, i: nat, key: Address): seq<Node> {
    (if key in d.readKeys then [Node(i, key, false)] else [])
      + if key in d.writeKeys then [Node(i, key, true)] else []
  }

  /** For the first `p` addresses of a list. */
  ghost function NodesUpTo(d: Declared, i: nat, keys: seq<Address>, p: nat): seq<Node>
    requires p <= |keys|
  {
    if p == 0 then [] else NodesUpTo(d, i, keys, p - 1) + NodesAt(d, i, keys[p - 1])
  }

  /** The nodes of the first `n` transactions, by transaction and by address. */
  ghost function NodesOf(block: seq<Declared>, sort: set<Address> -> seq<Address>, n: nat): seq<Node>
    requires n <= |block|
  {
    if n == 0 then []
    else
      var keys := sort(block[n - 1].readKeys + block[n - 1].writeKeys);
      NodesOf(block, sort, n - 1) + NodesUpTo(block[n - 1], n - 1, keys, |keys|)
  }

  lemma InNodesAt(d: Declared, i: nat, key: Address)
    ensures forall n :: n in NodesAt(d, i, key) <==>
      n.tx == i && n.key == key && key in (if n.write then d.writeKeys else d.readKeys)
  {
  }

  /** One access: its node is made and filed if it is declared. */
  method AddAccess(declared: bool, node: Node, ghost mark: nat, nodes0: seq<Node>, queues0: map<Address, Queue>,
      mine0: seq<nat>)
    returns (nodes: seq<Node>, queues: map<Address, Queue>, mine: seq<nat>)
    requires Queued(nodes0, queues0) && node !in nodes0 && Mine(nodes0, mark, mine0, node.tx)
    ensures Queued(nodes, queues) && Mine(nodes, mark, mine, node.tx) && nodes0 <= nodes
    ensures queues.Keys == queues0.Keys + (if declared then {node.key} else {})
    ensures nodes == nodes0 + if declared then [node] else []
  {
    hide Queued; hide Mine;
    nodes, queues, mine := nodes0, queues0, mine0;
    if declared {
      MineMore(nodes, mark, mine, node.tx, node);
      queues := AddNode(nodes, queues, node);
      mine := mine + [|nodes|];
      nodes := nodes + [node];
    }
  }

  /** The nodes of one transaction for one address, a read before a write. */
  method AddAddress(block: seq<Declared>, i: nat, keys: seq<Address>, p: nat, ghost mark: nat, nodes0: seq<Node>,
      queues0: map<Address, Queue>, mine0: seq<nat>)
    returns (nodes: seq<Node>, queues: map<Address, Queue>, mine: seq<nat>)
    requires i < |block| && p < |keys| && Queued(nodes0, queues0) && Exact(block, nodes0, i, keys, p)
    requires Mine(nodes0, mark, mine0, i)
    requires (forall k :: k in keys <==> k in block[i].readKeys + block[i].writeKeys)
    requires forall q, r :: 0 <= q < r < |keys| ==> keys[q] != keys[r]
    ensures Queued(nodes, queues) && Exact(block, nodes, i, keys, p + 1) && Mine(nodes, mark, mine, i)
    ensures nodes == nodes0 + NodesAt(block[i], i, keys[p])
    ensures queues.Keys == queues0.Keys + {keys[p]}
  {
    hide Queued; hide Exact; hide Mine; hide Accesses;
    var key := keys[p];
    assert key in keys;
    NotYet(block, nodes0, i, keys, p);
    nodes, queues, mine := AddAccess(key in block[i].readKeys, Node(i, key, false), mark, nodes0, queues0, mine0);
    nodes, queues, mine := AddAccess(key in block[i].writeKeys, Node(i, key, true), mark, nodes, queues, mine);
    InNodesAt(block[i], i, key);
    ExactStep(block, nodes0, i, keys, p, nodes);
  }

  ghost function Firsts(keys: seq<Address>, p: nat): set<Address>
    requires p <= |keys|
  {
    if p == 0 then {} else Firsts(keys, p - 1) + {keys[p - 1]}
  }

  lemma {:induction false} FirstsHave(keys: seq<Address>, p: nat, a: Address)
    requires p <= |keys|
    ensures a in Firsts(keys, p) <==> exists r :: 0 <= r < p && keys[r] == a
  {
    if p > 0 {
      FirstsHave(keys, p - 1, a);
    }
  }

  /** The nodes of one transaction, address by address. */
  method AddTransaction(block: seq<Declared>, i: nat, keys: seq<Address>, nodes0: seq<Node>,
      queues0: map<Address, Queue>)
    returns (nodes: seq<Node>, queues: map<Address, Queue>, mine: seq<nat>)
    requires i < |block| && Queued(nodes0, queues0) && Exact(block, nodes0, i, [], 0)
    requires (forall k :: k in keys <==> k in block[i].readKeys + block[i].writeKeys)
    requires forall p, r :: 0 <= p < r < |keys| ==> keys[p] != keys[r]
    ensures Queued(nodes, queues) && Exact(block, nodes, i + 1, [], 0) && Mine(nodes, |nodes0|, mine, i)
    ensures nodes == nodes0 + NodesUpTo(block[i], i, keys, |keys|)
    ensures queues.Keys == queues0.Keys + (block[i].readKeys + block[i].writeKeys)
  {
    hide Queued; hide Exact; hide Mine; hide Accesses;
    nodes, queues, mine := nodes0, queues0, [];
    StartExact(block, nodes0, i, keys);
    for p := 0 to |keys|
      invariant Queued(nodes, queues) && Exact(block, nodes, i, keys, p) && Mine(nodes, |nodes0|, mine, i)
      invariant nodes == nodes0 + NodesUpTo(block[i], i, keys, p)
      invariant queues.Keys == queues0.Keys + Firsts(keys, p)
    {
      nodes, queues, mine := AddAddress(block, i, keys, p, |nodes0|, nodes, queues, mine);
    }
    ExactDone(block, nodes, i, keys);
    AllFirsts(keys, block[i].readKeys + block[i].writeKeys);
  }

  lemma AllFirsts(keys: seq<Address>, all: set<Address>)
    requires forall k :: k in keys <==> k in all
    ensures Firsts(keys, |keys|) == all
  {
    forall a
      ensures a in Firsts(keys, |keys|) <==> a in keys
    {
      FirstsHave(keys, |keys|, a);
    }
  }

  lemma StartExact(block: seq<Declared>, nodes: seq<Node>, i: nat, keys: seq<Address>)
    requires Exact(block, nodes, i, [], 0)
    ensures Exact(block, nodes, i, keys, 0) && Mine(nodes, |nodes|, [], i)
  {
    assert forall n :: 0 <= n < |nodes| ==> nodes[n] in nodes;
  }

  lemma NotYet(block: seq<Declared>, nodes: seq<Node>, i: nat, keys: seq<Address>, p: nat)
    requires p < |keys| && Exact(block, nodes, i, keys, p) && forall q, r :: 0 <= q < r < |keys| ==> keys[q] != keys[r]
    ensures forall w: bool :: Node(i, keys[p], w) !in nodes
  {
  }

  // ---- The whole graph ----

  ghost function Used(block: seq<Declared>, i: nat): set<Address>
    requires i <= |block|
  {
    if i == 0 then {} else Used(block, i - 1) + (block[i - 1].readKeys + block[i - 1].writeKeys)
  }

  lemma OwnMore(nodes0: seq<Node>, nodes: seq<Node>, mine: seq<nat>, own: seq<seq<nat>>, i: nat)
    requires Mine(nodes, |nodes0|, mine, i) && nodes0 <= nodes && |own| == i && Tables(nodes0, own)
    ensures Tables(nodes, own + [mine])
  {
    hide Tables; hide Mine;
    assert nodes[..|nodes0|] == nodes0;
    MineLists(nodes, |nodes0|, mine, own, i);
  }

  /** Nodes of all transactions, by transaction and by address. */
  method BuildNodes(block: seq<Declared>, sort: set<Address> -> seq<Address>)
      returns (nodes: seq<Node>, own: seq<seq<nat>>, queues: map<Address, Queue>)
    requires T.Listing(sort)
    ensures Queued(nodes, queues) && Exact(block, nodes, |block|, [], 0) && Tables(nodes, own) && |own| == |block|
    ensures queues.Keys == Used(block, |block|) && nodes == NodesOf(block, sort, |block|)
  {
    nodes, own, queues := [], [], map[];
    assert Queued(nodes, queues) && Exact(block, nodes, 0, [], 0) && Tables(nodes, own);
    hide Queued; hide Exact; hide Mine; hide Accesses; hide Tables; hide T.Listing;
    for i := 0 to |block|
      invariant Queued(nodes, queues) && Exact(block, nodes, i, [], 0) && Tables(nodes, own) && |own| == i
      invariant queues.Keys == Used(block, i) && nodes == NodesOf(block, sort, i)
    {
      T.ListingOf(sort, block[i].readKeys + block[i].writeKeys);
      var more, queues', mine := AddTransaction(block, i, sort(block[i].readKeys + block[i].writeKeys), nodes, queues);
      OwnMore(nodes, more, mine, own, i);
      nodes, queues, own := more, queues', own + [mine];
    }
  }

  lemma FiledIsQueue(nodes: seq<Node>, q: Queue)
    requires Unrepeated(nodes) && Filed(nodes, q)
    ensures QueueOf(nodes, q)
  {
    assert forall p :: 0 <= p < |q.readers| ==> q.readers[p] in q.readers;
    assert forall p :: 0 <= p < |q.writers| ==> q.writers[p] in q.writers;
    forall p, r | 0 <= p < r < |q.readers|
      ensures nodes[q.readers[p]].tx != nodes[q.readers[r]].tx
    {
      assert nodes[q.readers[p]] != nodes[q.readers[r]];
    }
    forall p, r | 0 <= p < r < |q.writers|
      ensures nodes[q.writers[p]].tx != nodes[q.writers[r]].tx
    {
      assert nodes[q.writers[p]] != nodes[q.writers[r]];
    }
  }

  /** The queues in the order of their addresses, and where each address stands. */
  method IndexQueues(nodes: seq<Node>, own: seq<seq<nat>>, queues: map<Address, Queue>, keys: seq<Address>)
    returns (list: seq<Queue>, index: map<Address, nat>)
    requires Queued(nodes, queues) && Tables(nodes, own) && (forall k :: k in keys <==> k in queues)
    requires forall p, r :: 0 <= p < r < |keys| ==> keys[p] != keys[r]
    ensures Indexed(nodes, own, list, index) && |list| == |keys|
    ensures forall i :: 0 <= i < |list| ==> list[i].key == keys[i] && Filed(nodes, list[i])
  {
    hide Tables; hide Filed; hide QueueOf;
    list, index := [], map[];
    for i := 0 to |keys|
      invariant |list| == i && (forall j :: 0 <= j < i ==> keys[j] in queues && list[j] == queues[keys[j]])
      invariant forall a :: a in index <==> exists j :: 0 <= j < i && keys[j] == a
      invariant forall j :: 0 <= j < i ==> keys[j] in index && index[keys[j]] == j
    {
      assert keys[i] in keys;
      list := list + [queues[keys[i]]];
      index := index[keys[i] := i];
    }
    forall i | 0 <= i < |list|
      ensures QueueOf(nodes, list[i])
    {
      FiledIsQueue(nodes, list[i]);
    }
    forall n | 0 <= n < |nodes|
      ensures nodes[n].key in index
    {
      assert nodes[n].key in keys;
    }
  }

  /** Which transactions declare nothing. */
  function Idlers(block: seq<Declared>): set<nat> {
    set t | t in Upto(|block|) && t < |block| && block[t].readKeys == {} && block[t].writeKeys == {}
  }

  /** The nodes stand for exactly the declared accesses. */
  ghost predicate Represents(block: seq<Declared>, nodes: seq<Node>) {
    forall n :: n in nodes <==> Accesses(block, n)
  }

  /** Nobody is aborted, and transactions that declare nothing have the initial number. */
  ghost predicate Starting(block: seq<Declared>, m: Marks) {
    && |m.level| == |m.aborted| == |block|
    && forall t :: 0 <= t < |block| ==> !m.aborted[t] && m.level[t] == (if t in Idlers(block) then INITIAL else 0)
  }

  ghost predicate Unmarked(nodes: seq<Node>, m: Marks) {
    |m.placed| == |nodes| && forall n :: 0 <= n < |nodes| ==> !m.placed[n]
  }

  /** Everything that leads to the sequence numbers: the nodes of the declared accesses, the
      queues in the order of their addresses, their dependencies, their ranking with its rounds,
      and what sorting them in that order did to numbers and abort flags. */
  datatype Numbering = Numbering(nodes: seq<Node>, queues: seq<Queue>, adj: seq<seq<nat>>, order: seq<nat>,
    starts: seq<nat>, trace: seq<Marks>)

  ghost predicate Files(block: seq<Declared>, sort: set<Address> -> seq<Address>, x: Numbering) {
    && Represents(block, x.nodes) && |x.queues| == |sort(Used(block, |block|))|
    && x.nodes == NodesOf(block, sort, |block|)
    && forall i :: 0 <= i < |x.queues| ==>
      && QueueOf(x.nodes, x.queues[i]) && x.queues[i].key == sort(Used(block, |block|))[i]
      && Filed(x.nodes, x.queues[i])
  }

  ghost predicate Ranks(x: Numbering) {
    && |x.adj| == |x.queues| && Simple(x.adj)
    && (forall i, j :: 0 <= i < |x.queues| ==> (j in x.adj[i] <==> Depends(x.nodes, x.queues, i, j)))
    && |x.order| == |x.adj| && Greedy(x.adj, x.order) && Rounds(x.adj, x.order, x.starts)
    && forall p :: 0 <= p < |x.order| ==> x.order[p] < |x.queues|
  }

  ghost predicate Numbers(block: seq<Declared>, sort: set<Address> -> seq<Address>, x: Numbering) {
    && Files(block, sort, x) && Ranks(x) && Traced(x.nodes, Chosen(x.queues, x.order), x.trace)
    && Starting(block, x.trace[0]) && Unmarked(x.nodes, x.trace[0])
  }

  /** The marks in the end. */
  ghost function Final(x: Numbering): Marks
    requires x.trace != []
  {
    x.trace[|x.trace| - 1]
  }

  /** `buildACGPlan` up to the sequence numbers: the graph of the declared accesses, the ranking of
      its queues, and the numbers that sorting the queues in that order leaves. */
  method BuildNumbers(block: seq<Declared>, sort: set<Address> -> seq<Address>)
    returns (sorter: Sorter, queues: seq<Queue>, adj: seq<seq<nat>>, order: seq<nat>, ghost x: Numbering)
    requires T.Listing(sort) && |Used(block, |block|)| < MAX_INT
    ensures sorter.Valid() && fresh(sorter) && |sorter.own| == |block|
    ensures Numbers(block, sort, x) && x.nodes == sorter.nodes && x.queues == queues && x.adj == adj && x.order == order
    ensures Final(x) == Marks(sorter.level, sorter.placed, sorter.aborted)
    ensures Below(sorter.level, INITIAL + Writes(Chosen(queues, order), |order|))
    ensures forall p :: 0 <= p < |order| ==>
      Settled(sorter.nodes, Chosen(queues, order), p, |order|, sorter.level, sorter.aborted)
    ensures forall p :: 0 <= p < |order| && Undisturbed(sorter.nodes, Chosen(queues, order), p) ==>
      SortedAt(sorter.nodes, queues[order[p]], sorter.level, sorter.aborted)
  {
    hide Queued; hide Exact; hide Accesses; hide Tables; hide T.Listing; hide QueueOf; hide Greedy; hide Rounds;
    hide Simple; hide Depends; hide QueueSorted; hide Below; hide Settled; hide Traced; hide Starting; hide Used;
    hide Represents; hide Undisturbed; hide Idlers; hide Filed; hide Unmarked; hide NodesOf; hide Indexed;
    hide SortedAt; hide Writes; hide Chosen; hide Sorter.Valid;
    var nodes, own, filed := BuildNodes(block, sort);
    AllExact(block, nodes);
    T.ListingOf(sort, filed.Keys);
    var keys := sort(filed.Keys);
    var index;
    queues, index := IndexQueues(nodes, own, filed, keys);
    DistinctCount(keys, filed.Keys);
    adj := Dependencies(nodes, own, queues, index);
    ghost var starts;
    order, starts := QueueOrder(adj);
    GreedyInRange(adj, order);
    sorter := new Sorter(nodes, own, Idlers(block));
    NewMarks(block, sorter);
    IndexedQueues(nodes, own, queues, index);
    var chosen := Chosen(queues, order);
    ghost var trace := sorter.SortAll(chosen);
    x := Numbering(nodes, queues, adj, order, starts, trace);
    TraceLength(nodes, chosen, trace);
  }

  lemma NewMarks(block: seq<Declared>, sorter: Sorter)
    requires sorter.Valid() && |sorter.own| == |block|
    requires forall t :: 0 <= t < |sorter.own| ==>
      !sorter.aborted[t] && sorter.level[t] == (if t in Idlers(block) then INITIAL else 0)
    requires Represents(block, sorter.nodes)
    requires forall n :: 0 <= n < |sorter.nodes| ==> (sorter.placed[n] <==> sorter.nodes[n].tx in Idlers(block))
    ensures Starting(block, Marks(sorter.level, sorter.placed, sorter.aborted))
    ensures Unmarked(sorter.nodes, Marks(sorter.level, sorter.placed, sorter.aborted))
  {
    forall n | 0 <= n < |sorter.nodes|
      ensures sorter.nodes[n].tx !in Idlers(block)
    {
      assert sorter.nodes[n] in sorter.nodes && Accesses(block, sorter.nodes[n]);
    }
    hide Idlers;
  }

  lemma TraceLength(nodes: seq<Node>, order: seq<Queue>, trace: seq<Marks>)
    requires Traced(nodes, order, trace)
    ensures |trace| == |order| + 1
  {
  }

  lemma IndexedQueues(nodes: seq<Node>, own: seq<seq<nat>>, queues: seq<Queue>, index: map<Address, nat>)
    requires Indexed(nodes, own, queues, index)
    ensures forall i :: 0 <= i < |queues| ==> QueueOf(nodes, queues[i])
  {
  }

  function Chosen(queues: seq<Queue>, order: seq<nat>): (r: seq<Queue>)
    requires forall p :: 0 <= p < |order| ==> order[p] < |queues|
    ensures |r| == |order| && forall p :: 0 <= p < |order| ==> r[p] == queues[order[p]]
  {
    seq(|order|, p requires 0 <= p < |order| => queues[order[p]])
  }

  lemma AllExact(block: seq<Declared>, nodes: seq<Node>)
    requires Exact(block, nodes, |block|, [], 0)
    ensures Represents(block, nodes)
  {
  }

  lemma GreedyInRange(adj: seq<seq<nat>>, order: seq<nat>)
    requires Greedy(adj, order)
    ensures forall p :: 0 <= p < |order| ==> order[p] < |adj|
  {
  }
}
