/** Calvin's deterministic lock manager: one FIFO queue of shared/exclusive requests per
    key, filled in block order, advanced as transactions complete; and the dispatch loop
    that launches a transaction once all its locks are granted. */
module CalvinLocks {
  import opened Basics
  import opened Transactions

  /** The locks one transaction asks for at one shard: key to "exclusive". */
  type Demand = map<Key, bool>

  /** A request is named by its transaction and key; no transaction asks twice for a key. */
  type RequestId = (nat, Key)

  datatype LockRequest = LockRequest(txIndex: nat, exclusive: bool)

  /** A shard locks the keys homed there; the global logical table of the stateless mode,
      which belongs to no shard, locks every declared key. */
  predicate Locked(shard: Option<Shard>, home: map<Key, Shard>, k: Key) {
    shard.None? || (k in home && home[k] == shard.value)
  }

  function DemandOf(t: Tx, shard: Option<Shard>, home: map<Key, Shard>): Demand {
    map k | k in DeclaredKeys(t) && Locked(shard, home, k) :: k in DeclaredWrites(t)
  }

  function Demands(block: seq<Tx>, shard: Option<Shard>, home: map<Key, Shard>): seq<Demand> {
    seq(|block|, i requires 0 <= i < |block| => DemandOf(block[i], shard, home))
  }

  ghost predicate Requested(want: seq<Demand>, i: nat, k: Key) {
    i < |want| && k in want[i]
  }

  ghost predicate Conflict(want: seq<Demand>, i: nat, j: nat, k: Key) {
    Requested(want, i, k) && Requested(want, j, k) && (want[i][k] || want[j][k])
  }

  /** No earlier request for `k` that conflicts with transaction `i`'s is still held. */
  ghost predicate Free(want: seq<Demand>, released: set<RequestId>, i: nat, k: Key) {
    forall j :: 0 <= j < i && Conflict(want, j, i, k) ==> (j, k) in released
  }

  ghost function ReleasedBy(want: seq<Demand>, i: nat): set<RequestId>
    requires i < |want|
  {
    set k | k in want[i] :: (i, k)
  }

  /** The queue of a key: exactly the transactions that ask for it, in block order. */
  ghost predicate QueueOf(want: seq<Demand>, k: Key, q: seq<LockRequest>) {
    && (forall p :: 0 <= p < |q| ==> Requested(want, q[p].txIndex, k) && q[p].exclusive == want[q[p].txIndex][k])
    && (forall p, r :: 0 <= p < r < |q| ==> q[p].txIndex < q[r].txIndex)
    && (forall i: nat :: Requested(want, i, k) ==> LockRequest(i, want[i][k]) in q)
  }

  /** `ready` lists, without repetition, the transactions published since `before`. */
  ghost predicate Published(before: seq<bool>, after: seq<bool>, ready: seq<nat>) {
    && |before| == |after|
    && (forall i: nat :: i in ready <==> i < |after| && after[i] && !before[i])
    && (forall i :: 0 <= i < |before| && before[i] ==> after[i])
    && (forall p, r :: 0 <= p < r < |ready| ==> ready[p] != ready[r])
  }

  /** What never changes after construction: the queues, each transaction's key list and
      who takes part. */
  ghost predicate Tables(want: seq<Demand>, queues: map<Key, seq<LockRequest>>, byTx: seq<seq<Key>>,
      participant: seq<bool>) {
    && |byTx| == |participant| == |want|
    && Queues(want, queues)
    && (forall i, k :: 0 <= i < |want| ==> (k in byTx[i] <==> k in want[i]))
    && (forall i :: 0 <= i < |want| ==> (participant[i] <==> want[i] != map[]))
  }

  ghost function Waiting(want: seq<Demand>, granted: set<RequestId>, i: nat): set<Key>
    requires i < |want|
  {
    set k | k in want[i] && (i, k) !in granted
  }

  ghost predicate Counted(want: seq<Demand>, granted: set<RequestId>, waitCount: seq<int>) {
    |waitCount| == |want| && forall i :: 0 <= i < |want| ==> waitCount[i] == |Waiting(want, granted, i)|
  }

  ghost predicate OnlyFree(want: seq<Demand>, granted: set<RequestId>, released: set<RequestId>) {
    forall i, k :: (i, k) in granted ==> Requested(want, i, k) && Free(want, released, i, k)
  }

  /** Everything that may be granted on `k` has been. */
  ghost predicate Settled(want: seq<Demand>, granted: set<RequestId>, released: set<RequestId>, k: Key) {
    forall i: nat :: Requested(want, i, k) && (i, k) !in released && Free(want, released, i, k) ==> (i, k) in granted
  }

  ghost predicate SettledOutside(want: seq<Demand>, granted: set<RequestId>, released: set<RequestId>, open: set<Key>) {
    forall k :: k !in open ==> Settled(want, granted, released, k)
  }

  /** Nobody is published while still waiting. */
  ghost predicate NoneEarly(participant: seq<bool>, waitCount: seq<int>, enqueued: seq<bool>) {
    && |participant| == |waitCount| == |enqueued|
    && forall i :: 0 <= i < |enqueued| && enqueued[i] ==> participant[i] && waitCount[i] == 0
  }

  /** Every participant that holds all its locks has been published. */
  ghost predicate NoneMissed(participant: seq<bool>, waitCount: seq<int>, enqueued: seq<bool>)
    requires |participant| == |waitCount| == |enqueued|
  {
    forall i :: 0 <= i < |enqueued| && participant[i] && waitCount[i] == 0 ==> enqueued[i]
  }

  lemma CloseKey(want: seq<Demand>, granted: set<RequestId>, granted': set<RequestId>, released: set<RequestId>,
      open: set<Key>, key: Key)
    requires SettledOutside(want, granted, released, open) && granted <= granted'
    requires Settled(want, granted', released, key)
    ensures SettledOutside(want, granted', released, open - {key})
  {
    forall k | k !in open - {key}
      ensures Settled(want, granted', released, k)
    {
      if k != key {
        assert Settled(want, granted, released, k);
      }
    }
  }

  lemma GrantCounted(want: seq<Demand>, granted: set<RequestId>, waitCount: seq<int>, i: nat, key: Key)
    requires Counted(want, granted, waitCount) && Requested(want, i, key) && (i, key) !in granted
    ensures Counted(want, granted + {(i, key)}, waitCount[i := waitCount[i] - 1])
  {
    var granted' := granted + {(i, key)};
    assert Waiting(want, granted', i) == Waiting(want, granted, i) - {key};
    forall j | 0 <= j < |want| && j != i
      ensures Waiting(want, granted', j) == Waiting(want, granted, j)
    {
    }
  }

  lemma PublishOne(before: seq<bool>, after: seq<bool>, ready: seq<nat>, i: nat)
    requires Published(before, after, ready) && i < |after| && !after[i]
    ensures Published(before, after[i := true], ready + [i])
  {
    assert forall j: nat :: j in ready + [i] <==> j in ready || j == i;
  }

  function QueueAt(queues: map<Key, seq<LockRequest>>, k: Key): seq<LockRequest> {
    if k in queues then queues[k] else []
  }

  ghost predicate Queues(want: seq<Demand>, queues: map<Key, seq<LockRequest>>) {
    && (forall k :: k in queues ==> QueueOf(want, k, queues[k]))
    && (forall i: nat, k :: Requested(want, i, k) ==> k in queues)
  }

  lemma QueueGrows(want: seq<Demand>, d: Demand, k: Key, q: seq<LockRequest>)
    requires QueueOf(want, k, q)
    ensures k in d ==> QueueOf(want + [d], k, q + [LockRequest(|want|, d[k])])
    ensures k !in d ==> QueueOf(want + [d], k, q)
  {
    var want' := want + [d];
    assert forall i: nat :: Requested(want', i, k) ==> Requested(want, i, k) || (i == |want| && k in d);
    if k in d {
      var q' := q + [LockRequest(|want|, d[k])];
      assert q'[|q|] in q';
      assert forall r :: r in q ==> r in q';
    }
  }

  /** `d` is the demand of an access list: one lock per access homed here, in its mode. */
  ghost predicate Matches(accesses: seq<Access>, shard: Option<Shard>, home: map<Key, Shard>, d: Demand) {
    && (forall m :: 0 <= m < |accesses| ==> (accesses[m].key in d <==> Locked(shard, home, accesses[m].key)))
    && (forall m :: 0 <= m < |accesses| && accesses[m].key in d ==> d[accesses[m].key] == IsWriteMode(accesses[m].mode))
    && (forall k :: k in d ==> exists m :: 0 <= m < |accesses| && accesses[m].key == k)
    && (forall m, n :: 0 <= m < n < |accesses| ==> accesses[m].key != accesses[n].key)
  }

  lemma DemandMatches(t: Tx, shard: Option<Shard>, home: map<Key, Shard>)
    requires Canonical(t)
    ensures Matches(t.accessList, shard, home, DemandOf(t, shard, home))
  {
    forall m | 0 <= m < |t.accessList|
      ensures t.accessList[m].key in DeclaredKeys(t)
      ensures t.accessList[m].key in DeclaredWrites(t) <==> IsWriteMode(t.accessList[m].mode)
    {
      ModeDecides(t, m);
    }
  }

  /** `queues'` is `queues` with a request of transaction `index` appended for every key taken. */
  ghost predicate Pushed(queues: map<Key, seq<LockRequest>>, queues': map<Key, seq<LockRequest>>, taken: set<Key>,
      index: nat, d: Demand) {
    && taken <= d.Keys
    && (forall k :: k in queues' <==> k in queues || k in taken)
    && (forall k :: k in taken ==> queues'[k] == QueueAt(queues, k) + [LockRequest(index, d[k])])
    && (forall k :: k in queues && k !in taken ==> queues'[k] == queues[k])
  }

  lemma PushNone(queues: map<Key, seq<LockRequest>>, index: nat, d: Demand)
    ensures Pushed(queues, queues, {}, index, d)
  {
  }

  lemma PushOne(queues: map<Key, seq<LockRequest>>, queues': map<Key, seq<LockRequest>>, taken: set<Key>, index: nat,
      d: Demand, key: Key)
    requires Pushed(queues, queues', taken, index, d) && key in d && key !in taken
    ensures Pushed(queues, queues'[key := QueueAt(queues', key) + [LockRequest(index, d[key])]], taken + {key}, index,
        d)
  {
  }

  /** Appends one transaction's requests to the queues of its keys. */
  method Enqueue(accesses: seq<Access>, index: nat, shard: Option<Shard>, home: map<Key, Shard>,
      queues: map<Key, seq<LockRequest>>, ghost d: Demand)
    returns (queues': map<Key, seq<LockRequest>>, keys: seq<Key>)
    requires Matches(accesses, shard, home, d)
    ensures Pushed(queues, queues', d.Keys, index, d)
    ensures forall k :: k in keys <==> k in d
    ensures |keys| == |d.Keys|
  {
    hide Pushed;
    PushNone(queues, index, d);
    queues' := queues;
    keys := [];
    ghost var taken: set<Key> := {};
    for n := 0 to |accesses|
      invariant forall k :: k in keys <==> k in taken
      invariant |keys| == |taken| && taken <= d.Keys
      invariant forall m :: 0 <= m < n && accesses[m].key in d ==> accesses[m].key in taken
      invariant forall m :: n <= m < |accesses| ==> accesses[m].key !in taken
      invariant Pushed(queues, queues', taken, index, d)
    {
      var a := accesses[n];
      if Locked(shard, home, a.key) {
        PushOne(queues, queues', taken, index, d, a.key);
        queues' := queues'[a.key := QueueAt(queues', a.key) + [LockRequest(index, IsWriteMode(a.mode))]];
        keys := keys + [a.key];
        taken := taken + {a.key};
      }
    }
    assert taken == d.Keys;
  }

  lemma QueuesGrow(want: seq<Demand>, d: Demand, queues: map<Key, seq<LockRequest>>,
      queues': map<Key, seq<LockRequest>>)
    requires Queues(want, queues) && Pushed(queues, queues', d.Keys, |want|, d)
    ensures Queues(want + [d], queues')
  {
    forall k | k in queues'
      ensures QueueOf(want + [d], k, queues'[k])
    {
      assert QueueOf(want, k, QueueAt(queues, k));
      QueueGrows(want, d, k, QueueAt(queues, k));
    }
    assert forall i: nat, k :: Requested(want + [d], i, k) ==> Requested(want, i, k) || (i == |want| && k in d);
  }

  lemma ModeDecides(t: Tx, n: nat)
    requires Canonical(t) && n < |t.accessList|
    ensures t.accessList[n].key in DeclaredKeys(t)
    ensures t.accessList[n].key in DeclaredWrites(t) <==> IsWriteMode(t.accessList[n].mode)
  {
    assert t.accessList[n] in t.accessList;
    if t.accessList[n].key in DeclaredWrites(t) {
      var a :| a in t.accessList && IsWriteMode(a.mode) && a.key == t.accessList[n].key;
      var p :| 0 <= p < |t.accessList| && t.accessList[p] == a;
      assert p == n;
    }
  }

  lemma SettledFrame(want: seq<Demand>, granted: set<RequestId>, released: set<RequestId>, released': set<RequestId>,
      k: Key)
    requires Settled(want, granted, released, k)
    requires forall j: nat :: (j, k) in released <==> (j, k) in released'
    ensures Settled(want, granted, released', k)
  {
    forall i: nat | Requested(want, i, k) && (i, k) !in released' && Free(want, released', i, k)
      ensures (i, k) in granted
    {
      assert Free(want, released, i, k);
    }
  }

  lemma OneMore(want: seq<Demand>, d: Demand, counts: seq<int>, n: nat)
    requires Counted(want, {}, counts) && n == |d.Keys|
    ensures Counted(want + [d], {}, counts + [n])
    ensures n > 0 <==> d != map[]
  {
    assert Waiting(want + [d], {}, |want|) == d.Keys;
    assert forall i :: 0 <= i < |want| ==> Waiting(want + [d], {}, i) == Waiting(want, {}, i);
    if d != map[] {
      var k :| k in d;
      assert |d.Keys| > 0;
    }
  }

  lemma TablesGrow(want: seq<Demand>, d: Demand, queues: map<Key, seq<LockRequest>>,
      queues': map<Key, seq<LockRequest>>, byTx: seq<seq<Key>>, participant: seq<bool>, keys: seq<Key>)
    requires Tables(want, queues, byTx, participant) && Pushed(queues, queues', d.Keys, |want|, d)
    requires (forall k :: k in keys <==> k in d) && |keys| == |d.Keys|
    ensures Tables(want + [d], queues', byTx + [keys], participant + [|keys| > 0])
  {
    QueuesGrow(want, d, queues, queues');
    assert |keys| > 0 <==> d != map[] by {
      if d != map[] {
        var k :| k in d;
        assert |d.Keys| > 0;
      }
    }
  }

  method BuildTables(block: seq<Tx>, shard: Option<Shard>, home: map<Key, Shard>)
    returns (queues: map<Key, seq<LockRequest>>, byTx: seq<seq<Key>>, participant: seq<bool>, waitCount: seq<int>)
    requires forall t :: t in block ==> Canonical(t)
    ensures Tables(Demands(block, shard, home), queues, byTx, participant)
    ensures Counted(Demands(block, shard, home), {}, waitCount)
  {
    ghost var w := Demands(block, shard, home);
    queues, byTx, participant, waitCount := map[], [], [], [];
    for index := 0 to |block|
      invariant Tables(w[..index], queues, byTx, participant)
      invariant Counted(w[..index], {}, waitCount)
    {
      assert w[..index + 1] == w[..index] + [w[index]];
      DemandMatches(block[index], shard, home);
      var queues', keys := Enqueue(block[index].accessList, index, shard, home, queues, w[index]);
      TablesGrow(w[..index], w[index], queues, queues', byTx, participant, keys);
      OneMore(w[..index], w[index], waitCount, |keys|);
      queues := queues';
      byTx := byTx + [keys];
      participant := participant + [|keys| > 0];
      waitCount := waitCount + [|keys|];
    }
    assert w[..|block|] == w;
  }

  class LockManager {
    ghost const want: seq<Demand>
    const queues: map<Key, seq<LockRequest>>
    const byTx: seq<seq<Key>>
    const participant: seq<bool>
    var granted: set<RequestId>
    var released: set<RequestId>
    var waitCount: seq<int>
    var enqueued: seq<bool>

    ghost predicate Valid()
      reads this
    {
      && |waitCount| == |participant| == |enqueued| == |want|
      && Tables(want, queues, byTx, participant)
      && Counted(want, granted, waitCount)
      && OnlyFree(want, granted, released)
      && NoneEarly(participant, waitCount, enqueued)
    }

    /** `newCalvinLockManager` on a block whose access lists are canonical: fills the queues in
        block order and makes every initial grant, publishing nothing yet. */
    constructor (block: seq<Tx>, shard: Option<Shard>, home: map<Key, Shard>)
      requires forall t :: t in block ==> Canonical(t)
      ensures Valid() && want == Demands(block, shard, home)
      ensures released == {} && enqueued == seq(|block|, i => false)
      ensures SettledOutside(want, granted, released, {})
    {
      var qs, lists, parts, counts := BuildTables(block, shard, home);
      want := Demands(block, shard, home);
      queues := qs;
      byTx := lists;
      participant := parts;
      waitCount := counts;
      granted := {};
      released := {};
      enqueued := seq(|block|, i => false);
      new;
      var todo := queues.Keys;
      while todo != {}
        invariant todo <= queues.Keys && Valid() && released == {}
        invariant enqueued == seq(|block|, i => false)
        invariant SettledOutside(want, granted, released, todo)
        decreases |todo|
      {
        var key :| key in todo;
        var _ := AdvanceKey(key, false, [], enqueued, todo);
        todo := todo - {key};
      }
    }

    /** The bookkeeping of newly published transactions, when they are being published. */
    ghost predicate Listed(publish: bool, ready: seq<nat>, before: seq<bool>)
      requires Valid()
      reads this
    {
      if publish then Published(before, enqueued, ready) && NoneMissed(participant, waitCount, enqueued)
      else ready == [] && enqueued == before
    }

    method Grant(key: Key, i: nat, publish: bool, ready: seq<nat>, ghost before: seq<bool>) returns (ready': seq<nat>)
      requires Valid() && Requested(want, i, key) && Free(want, released, i, key)
      requires Listed(publish, ready, before)
      modifies `granted, `waitCount, `enqueued
      ensures Valid() && granted == old(granted) + {(i, key)}
      ensures Listed(publish, ready', before) && (ready' == ready || ready' == ready + [i])
    {
      ready' := ready;
      if (i, key) in granted {
        return;
      }
      GrantCounted(want, granted, waitCount, i, key);
      granted := granted + {(i, key)};
      waitCount := waitCount[i := waitCount[i] - 1];
      if waitCount[i] == 0 && participant[i] && !enqueued[i] && publish {
        PublishOne(before, enqueued, ready, i);
        enqueued := enqueued[i := true];
        ready' := ready + [i];
      }
    }

    /** `advanceKeyLocked`: grants the first unreleased request or, when that one is shared,
        every shared request up to the next exclusive one. This is everything `Free` allows. */
    method AdvanceKey(key: Key, publish: bool, ready: seq<nat>, ghost before: seq<bool>, ghost open: set<Key>)
        returns (ready': seq<nat>)
      requires Valid() && key in queues
      requires Listed(publish, ready, before) && SettledOutside(want, granted, released, open)
      modifies `granted, `waitCount, `enqueued
      ensures Valid() && Listed(publish, ready', before)
      ensures SettledOutside(want, granted, released, open - {key})
    {
      ready' := AdvanceQueue(key, publish, ready, before);
      CloseKey(want, old(granted), granted, released, open, key);
    }

    method AdvanceQueue(key: Key, publish: bool, ready: seq<nat>, ghost before: seq<bool>) returns (ready': seq<nat>)
      requires Valid() && key in queues
      requires Listed(publish, ready, before)
      modifies `granted, `waitCount, `enqueued
      ensures Valid() && Settled(want, granted, released, key)
      ensures old(granted) <= granted
      ensures Listed(publish, ready', before)
    {
      hide Counted; hide OnlyFree; hide Settled; hide NoneEarly; hide Published; hide NoneMissed;
      var queue := queues[key];
      assert QueueOf(want, key, queue);
      hide Tables; hide QueueOf; hide Free; hide Requested;
      ready' := ready;
      var first := 0;
      while first < |queue| && (queue[first].txIndex, key) in released
        invariant 0 <= first <= |queue|
        invariant forall p :: 0 <= p < first ==> (queue[p].txIndex, key) in released
      {
        first := first + 1;
      }
      if first == |queue| {
        AllGranted(want, granted, released, key, queue, first, first);
        return;
      }
      EarlierReleased(want, released, key, queue, first, first);
      if queue[first].exclusive {
        ready' := Grant(key, queue[first].txIndex, publish, ready', before);
        AllGranted(want, granted, released, key, queue, first, first + 1);
        return;
      }
      ready' := GrantShared(key, first, publish, ready', before);
    }

    /** Grants the run of shared requests at the head of the queue. */
    method GrantShared(key: Key, first: nat, publish: bool, ready: seq<nat>, ghost before: seq<bool>)
        returns (ready': seq<nat>)
      requires Valid() && key in queues && first < |queues[key]| && !queues[key][first].exclusive
      requires (queues[key][first].txIndex, key) !in released
      requires forall p :: 0 <= p < first ==> (queues[key][p].txIndex, key) in released
      requires Listed(publish, ready, before)
      modifies `granted, `waitCount, `enqueued
      ensures Valid() && Settled(want, granted, released, key)
      ensures old(granted) <= granted
      ensures Listed(publish, ready', before)
    {
      hide Counted; hide OnlyFree; hide Settled; hide NoneEarly; hide Published; hide NoneMissed;
      var queue := queues[key];
      assert QueueOf(want, key, queue);
      hide Tables; hide QueueOf; hide Free; hide Requested;
      ready' := ready;
      var index := first;
      while index < |queue| && ((queue[index].txIndex, key) in released || !queue[index].exclusive)
        invariant first <= index <= |queue|
        invariant Valid() && old(granted) <= granted && Listed(publish, ready', before)
        invariant forall p :: first <= p < index ==> !queue[p].exclusive || (queue[p].txIndex, key) in released
        invariant forall p ::
          0 <= p < index ==> (queue[p].txIndex, key) in released || (queue[p].txIndex, key) in granted
      {
        if (queue[index].txIndex, key) !in released {
          EarlierReleased(want, released, key, queue, first, index);
          ready' := Grant(key, queue[index].txIndex, publish, ready', before);
        }
        index := index + 1;
      }
      AllGranted(want, granted, released, key, queue, first, index);
    }

    method InitialReady() returns (ready: seq<nat>)
      requires Valid() && (forall i :: 0 <= i < |enqueued| ==> !enqueued[i])
      modifies `enqueued
      ensures Valid() && Listed(true, ready, old(enqueued))
      ensures forall p, r :: 0 <= p < r < |ready| ==> ready[p] < ready[r]
    {
      ready := [];
      for index := 0 to |participant|
        invariant Valid() && Published(old(enqueued), enqueued, ready)
        invariant forall i :: 0 <= i < index && participant[i] && waitCount[i] == 0 ==> enqueued[i]
        invariant forall p :: 0 <= p < |ready| ==> ready[p] < index
        invariant forall p, r :: 0 <= p < r < |ready| ==> ready[p] < ready[r]
      {
        if participant[index] && waitCount[index] == 0 && !enqueued[index] {
          PublishOne(old(enqueued), enqueued, ready, index);
          enqueued := enqueued[index := true];
          ready := ready + [index];
        }
      }
    }

    /** `release`: gives back every lock of one transaction and advances the queues it stood
        in, publishing whoever now holds everything. */
    method Release(txIndex: nat) returns (ready: seq<nat>)
      requires Valid() && txIndex < |want| && NoneMissed(participant, waitCount, enqueued)
      requires SettledOutside(want, granted, released, {})
      modifies `granted, `released, `waitCount, `enqueued
      ensures Valid() && Listed(true, ready, old(enqueued))
      ensures released == old(released) + ReleasedBy(want, txIndex)
      ensures SettledOutside(want, granted, released, {})
    {
      var keys := byTx[txIndex];
      assert (set k | k in keys :: (txIndex, k)) == ReleasedBy(want, txIndex);
      released := released + set k | k in keys :: (txIndex, k);
      ReopenKeys(want, granted, old(released), txIndex);
      ready := [];
      ghost var open := want[txIndex].Keys;
      for n := 0 to |keys|
        invariant Valid() && Listed(true, ready, old(enqueued))
        invariant released == old(released) + ReleasedBy(want, txIndex)
        invariant SettledOutside(want, granted, released, open)
        invariant forall k :: k in open ==> k in keys[n..]
      {
        assert keys[n] in keys && Requested(want, txIndex, keys[n]);
        ready := AdvanceKey(keys[n], true, ready, old(enqueued), open);
        open := open - {keys[n]};
      }
    }
  }

  /** Giving back a transaction's locks can unsettle only the keys it had locked. */
  lemma ReopenKeys(want: seq<Demand>, granted: set<RequestId>, released: set<RequestId>, i: nat)
    requires i < |want| && SettledOutside(want, granted, released, {})
    ensures SettledOutside(want, granted, released + ReleasedBy(want, i), want[i].Keys)
  {
    forall k | k !in want[i]
      ensures Settled(want, granted, released + ReleasedBy(want, i), k)
    {
      assert Settled(want, granted, released, k);
      SettledFrame(want, granted, released, released + ReleasedBy(want, i), k);
    }
  }

  /** A shared request behind released or shared ones is free; so is any request behind
      released ones only. */
  lemma EarlierReleased(want: seq<Demand>, released: set<RequestId>, key: Key, queue: seq<LockRequest>, first: nat,
      at: nat)
    requires QueueOf(want, key, queue) && first <= at < |queue|
    requires forall p :: 0 <= p < first ==> (queue[p].txIndex, key) in released
    requires forall p :: first <= p < at ==> !queue[p].exclusive || (queue[p].txIndex, key) in released
    requires at == first || !queue[at].exclusive
    ensures Requested(want, queue[at].txIndex, key)
    ensures Free(want, released, queue[at].txIndex, key)
  {
    forall j: nat | j < queue[at].txIndex && Conflict(want, j, queue[at].txIndex, key)
      ensures (j, key) in released
    {
      var p :| 0 <= p < |queue| && queue[p] == LockRequest(j, want[j][key]);
    }
  }

  /** Once the queue is granted up to `stop`, and an unreleased request `head` before `stop`
      blocks whatever stands from `stop` on, alone or with an exclusive request at `stop`,
      the key is settled. */
  lemma AllGranted(want: seq<Demand>, granted: set<RequestId>, released: set<RequestId>, key: Key,
      queue: seq<LockRequest>, head: nat, stop: nat)
    requires QueueOf(want, key, queue) && stop <= |queue|
    requires forall p :: 0 <= p < stop ==> (queue[p].txIndex, key) in released || (queue[p].txIndex, key) in granted
    requires stop < |queue| ==> head < stop && (queue[head].txIndex, key) !in released
    requires stop < |queue| && !queue[head].exclusive
      ==> queue[stop].exclusive && (queue[stop].txIndex, key) !in released
    ensures Settled(want, granted, released, key)
  {
    forall i: nat | Requested(want, i, key) && (i, key) !in released && Free(want, released, i, key)
      ensures (i, key) in granted
    {
      var p :| 0 <= p < |queue| && queue[p] == LockRequest(i, want[i][key]);
      if p >= stop {
        var blocker := if queue[head].exclusive || p == stop then head else stop;
        assert Conflict(want, queue[blocker].txIndex, i, key);
      }
    }
  }

  // ---- The dispatch loop ----

  datatype Event = Launch(tx: nat) | Complete(tx: nat)

  function Participants(participant: seq<bool>): set<nat> {
    set i: nat | i < |participant| && participant[i]
  }

  function Elements(s: seq<nat>): set<nat> {
    set i | i in s
  }

  /** Exactly the locks of the completed transactions have been given back. */
  ghost predicate GivenBack(want: seq<Demand>, released: set<RequestId>, completed: set<nat>) {
    forall i, k :: (i, k) in released <==> i in completed && Requested(want, i, k)
  }

  /** Deadlock freedom: the lowest uncompleted participant holds all its locks. */
  lemma LowestIsReady(want: seq<Demand>, granted: set<RequestId>, released: set<RequestId>, waitCount: seq<int>,
      completed: set<nat>, i: nat)
    requires Counted(want, granted, waitCount) && GivenBack(want, released, completed)
    requires SettledOutside(want, granted, released, {})
    requires i < |want| && i !in completed
    requires forall j: nat :: j < i && want[j] != map[] ==> j in completed
    ensures waitCount[i] == 0
  {
    forall k | k in want[i]
      ensures (i, k) in granted
    {
      assert Settled(want, granted, released, k);
      assert Requested(want, i, k) && Free(want, released, i, k);
    }
    assert Waiting(want, granted, i) == {};
  }

  lemma {:induction false} LowestUncompleted(participant: seq<bool>, completed: set<nat>, some: nat) returns (i: nat)
    requires some in Participants(participant) && some !in completed
    ensures i in Participants(participant) && i !in completed
    ensures forall j: nat :: j < i && participant[j] ==> j in completed
    decreases some
  {
    if j: nat :| j < some && participant[j] && j !in completed {
      i := LowestUncompleted(participant, completed, j);
    } else {
      i := some;
    }
  }

  /** A dispatch history: who was launched and completed, nobody twice, completion after
      launch, and a launch only after every earlier conflicting transaction completed. */
  ghost predicate History(want: seq<Demand>, trace: seq<Event>, launched: set<nat>, completed: set<nat>) {
    && (forall i: nat :: Launch(i) in trace <==> i in launched)
    && (forall i: nat :: Complete(i) in trace <==> i in completed)
    && (forall p, r :: 0 <= p < r < |trace| ==> trace[p] != trace[r])
    && (forall p :: 0 <= p < |trace| && trace[p].Complete? ==> Launch(trace[p].tx) in trace[..p])
    && (forall p, i: nat, k ::
          0 <= p < |trace| && trace[p].Launch? && i < trace[p].tx && Conflict(want, i, trace[p].tx, k)
          ==> Complete(i) in trace[..p])
  }

  lemma HistoryGrows(want: seq<Demand>, trace: seq<Event>, launched: set<nat>, completed: set<nat>, e: Event)
    requires History(want, trace, launched, completed) && e !in trace
    requires e.Complete? ==> e.tx in launched
    requires e.Launch? ==> forall i: nat, k :: i < e.tx && Conflict(want, i, e.tx, k) ==> i in completed
    ensures History(want, trace + [e], if e.Launch? then launched + {e.tx} else launched,
        if e.Complete? then completed + {e.tx} else completed)
  {
    var trace' := trace + [e];
    assert forall p :: 0 <= p < |trace| ==> trace'[..p] == trace[..p];
    assert trace'[..|trace|] == trace;
    assert forall x :: x in trace' <==> x in trace || x == e;
  }

  /** A transaction that waits for nothing has every earlier conflicting one behind it. */
  lemma HoldersAreAlone(want: seq<Demand>, granted: set<RequestId>, released: set<RequestId>, waitCount: seq<int>,
      completed: set<nat>, j: nat)
    requires Counted(want, granted, waitCount) && OnlyFree(want, granted, released)
    requires GivenBack(want, released, completed)
    requires j < |want| && waitCount[j] == 0
    ensures forall i: nat, k :: i < j && Conflict(want, i, j, k) ==> i in completed
  {
    forall i: nat, k | i < j && Conflict(want, i, j, k)
      ensures i in completed
    {
      assert k !in Waiting(want, granted, j);
      assert Free(want, released, j, k);
    }
  }

  /** Launches a list of newly published transactions. */
  method LaunchAll(m: LockManager, ready: seq<nat>, trace: seq<Event>, ghost before: set<nat>,
      ghost completed: set<nat>) returns (trace': seq<Event>)
    requires m.Valid() && GivenBack(m.want, m.released, completed)
    requires History(m.want, trace, before, completed)
    requires forall p :: 0 <= p < |ready| ==> ready[p] !in before && ready[p] < |m.want| && m.waitCount[ready[p]] == 0
    requires forall p, r :: 0 <= p < r < |ready| ==> ready[p] != ready[r]
    ensures History(m.want, trace', before + Elements(ready), completed)
  {
    trace' := trace;
    for n := 0 to |ready|
      invariant History(m.want, trace', before + Elements(ready[..n]), completed)
    {
      HoldersAreAlone(m.want, m.granted, m.released, m.waitCount, completed, ready[n]);
      assert ready[n] !in ready[..n];
      HistoryGrows(m.want, trace', before + Elements(ready[..n]), completed, Launch(ready[n]));
      assert before + Elements(ready[..n]) + {ready[n]} == before + Elements(ready[..n + 1]);
      trace' := trace' + [Launch(ready[n])];
    }
    assert ready[..|ready|] == ready;
  }

  /** Between two steps of the loop: everything grantable is granted, everyone ready has been
      published, and exactly the completed transactions have given back their locks. */
  ghost predicate Steady(m: LockManager, completed: set<nat>)
    reads m
  {
    && m.Valid() && NoneMissed(m.participant, m.waitCount, m.enqueued)
    && SettledOutside(m.want, m.granted, m.released, {})
    && GivenBack(m.want, m.released, completed)
    && completed <= Participants(m.enqueued)
  }

  lemma GivenBackGrows(want: seq<Demand>, released: set<RequestId>, completed: set<nat>, out: nat)
    requires GivenBack(want, released, completed) && out < |want|
    ensures GivenBack(want, released + ReleasedBy(want, out), completed + {out})
  {
  }

  lemma CompletionNext(want: seq<Demand>, trace: seq<Event>, launched: set<nat>, completed: set<nat>, out: nat)
    requires History(want, trace, launched, completed) && out in launched && out !in completed
    ensures History(want, trace + [Complete(out)], launched, completed + {out})
  {
    assert Complete(out) !in trace;
    HistoryGrows(want, trace, launched, completed, Complete(out));
  }

  /** One turn of the loop: a running transaction completes, its locks are released and
      whoever became ready is launched. */
  method CompleteOne(m: LockManager, out: nat, trace: seq<Event>, ghost completed: set<nat>)
      returns (trace': seq<Event>, ready: seq<nat>)
    requires Steady(m, completed) && History(m.want, trace, Participants(m.enqueued), completed)
    requires out in Participants(m.enqueued) && out !in completed
    modifies m
    ensures Steady(m, completed + {out}) && History(m.want, trace', Participants(m.enqueued), completed + {out})
    ensures Participants(m.enqueued) == old(Participants(m.enqueued)) + Elements(ready)
    ensures Elements(ready) !! old(Participants(m.enqueued)) && completed <= old(Participants(m.enqueued))
  {
    hide Tables; hide Counted; hide OnlyFree; hide SettledOutside; hide GivenBack; hide History;
    GivenBackGrows(m.want, m.released, completed, out);
    CompletionNext(m.want, trace, Participants(m.enqueued), completed, out);
    ghost var before := Participants(m.enqueued);
    ready := m.Release(out);
    assert Participants(m.enqueued) == before + Elements(ready);
    assert forall p :: 0 <= p < |ready| ==> ready[p] in ready && ready[p] in Participants(m.enqueued);
    trace' := LaunchAll(m, ready, trace + [Complete(out)], before, completed + {out});
  }

  /** Publishes and launches whoever holds all its locks at the start. */
  method Begin(m: LockManager) returns (trace: seq<Event>, ready: seq<nat>)
    requires m.Valid() && m.released == {} && (forall i :: 0 <= i < |m.enqueued| ==> !m.enqueued[i])
    requires SettledOutside(m.want, m.granted, m.released, {})
    modifies m
    ensures Steady(m, {}) && History(m.want, trace, Participants(m.enqueued), {})
    ensures Participants(m.enqueued) == Elements(ready)
  {
    hide Tables; hide Counted; hide OnlyFree; hide SettledOutside; hide History;
    ready := m.InitialReady();
    assert Participants(m.enqueued) == Elements(ready);
    assert forall p :: 0 <= p < |ready| ==> ready[p] in ready && ready[p] in Participants(m.enqueued);
    EmptyHistory(m.want);
    assert {} + Elements(ready) == Elements(ready);
    trace := LaunchAll(m, ready, [], {}, {});
  }

  lemma EmptyHistory(want: seq<Demand>)
    ensures History(want, [], {}, {})
  {
  }

  lemma Turn(launched: set<nat>, ready: set<nat>, completed: set<nat>, out: nat)
    requires ready !! launched && completed <= launched && out in launched - completed
    ensures (launched + ready) - (completed + {out}) == (launched - completed) - {out} + ready
  {
  }

  /** The loop of `ExecuteBlock`, with the order in which running transactions complete left
      open: it always ends, having launched and completed every participant exactly once. */
  method Dispatch(m: LockManager) returns (trace: seq<Event>)
    requires m.Valid() && m.released == {} && (forall i :: 0 <= i < |m.enqueued| ==> !m.enqueued[i])
    requires SettledOutside(m.want, m.granted, m.released, {})
    modifies m
    ensures History(m.want, trace, Participants(m.participant), Participants(m.participant))
  {
    hide Tables; hide Counted; hide OnlyFree; hide SettledOutside; hide History; hide Steady; hide Participants;
    hide Elements;
    ghost var completed: set<nat> := {};
    var ready;
    trace, ready := Begin(m);
    var running: set<nat> := Elements(ready);
    var done := 0;
    while done < |Participants(m.participant)|
      invariant Steady(m, completed)
      invariant done == |completed|
      invariant running == Participants(m.enqueued) - completed
      invariant History(m.want, trace, Participants(m.enqueued), completed)
    {
      SomeoneRuns(m, completed);
      var out :| out in running;
      ghost var launched := Participants(m.enqueued);
      trace, ready := CompleteOne(m, out, trace, completed);
      Turn(launched, Elements(ready), completed, out);
      done := done + 1;
      completed := completed + {out};
      running := running - {out} + Elements(ready);
    }
    EveryoneDone(m, completed);
  }

  /** While a participant is uncompleted, a launched one is: the loop never waits in vain. */
  lemma SomeoneRuns(m: LockManager, completed: set<nat>)
    requires Steady(m, completed) && |completed| < |Participants(m.participant)|
    ensures Participants(m.enqueued) - completed != {}
  {
    var all := Participants(m.participant);
    assert completed <= all;
    assert all == completed + (all - completed);
    assert |all - completed| > 0;
    var some :| some in all - completed;
    var i := LowestUncompleted(m.participant, completed, some);
    LowestIsReady(m.want, m.granted, m.released, m.waitCount, completed, i);
    assert i in Participants(m.enqueued) - completed;
  }

  lemma EveryoneDone(m: LockManager, completed: set<nat>)
    requires Steady(m, completed) && |completed| >= |Participants(m.participant)|
    ensures completed == Participants(m.participant) == Participants(m.enqueued)
  {
    var all := Participants(m.participant);
    assert completed <= Participants(m.enqueued) <= all;
    assert all == completed + (all - completed);
    assert |all - completed| == 0;
  }

  /** In a steady manager the published transactions are exactly those that ask for a lock and
      whose earlier conflicting ones have completed. */
  lemma PublishedExactly(m: LockManager, completed: set<nat>, i: nat)
    requires Steady(m, completed)
    ensures i in Participants(m.enqueued)
      <==> i < |m.want| && m.want[i] != map[]
            && forall j: nat, k :: j < i && Conflict(m.want, j, i, k) ==> j in completed
  {
    hide OnlyFree; hide Counted; hide SettledOutside; hide GivenBack; hide Queues;
    if i in Participants(m.enqueued) {
      HoldersAreAlone(m.want, m.granted, m.released, m.waitCount, completed, i);
    } else if i < |m.want| && m.want[i] != map[] {
      if forall j: nat, k :: j < i && Conflict(m.want, j, i, k) ==> j in completed {
        ClearIsReady(m, completed, i);
      }
    }
  }

  lemma ClearIsReady(m: LockManager, completed: set<nat>, i: nat)
    requires Steady(m, completed) && i < |m.want| && i !in completed
    requires forall j: nat, k :: j < i && Conflict(m.want, j, i, k) ==> j in completed
    ensures m.waitCount[i] == 0
  {
    forall k | k in m.want[i]
      ensures (i, k) in m.granted
    {
      assert Settled(m.want, m.granted, m.released, k);
      assert Requested(m.want, i, k) && Free(m.want, m.released, i, k);
    }
    assert Waiting(m.want, m.granted, i) == {};
  }

  // ---- In terms of the block ----

  /** Transaction `i` declares the key and the table is about it. */
  ghost predicate Concerns(block: seq<Tx>, keys: set<Key>, i: nat, k: Key) {
    i < |block| && k in keys && k in DeclaredKeys(block[i])
  }

  /** A history of a block over the keys a table is about: everybody who declares one of them is
      launched and completed once, completion after launch, and nobody is launched while an earlier
      transaction that declares the same key, one of the two to write it, is uncompleted. */
  ghost predicate BlockHistory(block: seq<Tx>, keys: set<Key>, trace: seq<Event>) {
    && (forall i: nat :: Launch(i) in trace <==> exists k :: Concerns(block, keys, i, k))
    && (forall i: nat :: Complete(i) in trace <==> Launch(i) in trace)
    && (forall p, r :: 0 <= p < r < |trace| ==> trace[p] != trace[r])
    && (forall p :: 0 <= p < |trace| && trace[p].Complete? ==> Launch(trace[p].tx) in trace[..p])
    && (forall p, i: nat, k :: 0 <= p < |trace| && trace[p].Launch? && i < trace[p].tx && Concerns(block, keys, i, k)
          && Concerns(block, keys, trace[p].tx, k)
          && (k in DeclaredWrites(block[i]) || k in DeclaredWrites(block[trace[p].tx]))
          ==> Complete(i) in trace[..p])
  }

  ghost function AllDeclared(block: seq<Tx>): set<Key> {
    set i, k | 0 <= i < |block| && k in DeclaredKeys(block[i]) :: k
  }

  ghost function HomedAt(home: map<Key, Shard>, s: Shard): set<Key> {
    set k | k in home && home[k] == s
  }

  /** The keys a table is about: those of its shard, or without a shard all that are declared. */
  ghost function TableKeys(block: seq<Tx>, shard: Option<Shard>, home: map<Key, Shard>): set<Key> {
    match shard
    case None => AllDeclared(block)
    case Some(s) => HomedAt(home, s)
  }

  lemma AsksFor(block: seq<Tx>, shard: Option<Shard>, home: map<Key, Shard>, i: nat, k: Key)
    ensures Requested(Demands(block, shard, home), i, k) <==> Concerns(block, TableKeys(block, shard, home), i, k)
    ensures Requested(Demands(block, shard, home), i, k)
      ==> (Demands(block, shard, home)[i][k] <==> k in DeclaredWrites(block[i]))
  {
    hide DeclaredReads; hide DeclaredWrites;
  }

  lemma ParticipantAsks(block: seq<Tx>, shard: Option<Shard>, home: map<Key, Shard>, participant: seq<bool>, i: nat)
    requires |participant| == |block|
    requires forall j :: 0 <= j < |block| ==> (participant[j] <==> Demands(block, shard, home)[j] != map[])
    ensures i in Participants(participant) <==> exists k :: Concerns(block, TableKeys(block, shard, home), i, k)
  {
    hide DeclaredReads; hide DeclaredWrites; hide TableKeys; hide DemandOf; hide DeclaredKeys;
    if i in Participants(participant) {
      var k :| k in Demands(block, shard, home)[i];
      AsksFor(block, shard, home, i, k);
    }
    if k :| Concerns(block, TableKeys(block, shard, home), i, k) {
      AsksFor(block, shard, home, i, k);
    }
  }

  lemma InBlockTerms(block: seq<Tx>, shard: Option<Shard>, home: map<Key, Shard>, participant: seq<bool>,
      trace: seq<Event>)
    requires |participant| == |block|
    requires forall i :: 0 <= i < |block| ==> (participant[i] <==> Demands(block, shard, home)[i] != map[])
    requires History(Demands(block, shard, home), trace, Participants(participant), Participants(participant))
    ensures BlockHistory(block, TableKeys(block, shard, home), trace)
  {
    hide DeclaredReads; hide DeclaredWrites; hide TableKeys; hide DemandOf; hide DeclaredKeys;
    var want, keys := Demands(block, shard, home), TableKeys(block, shard, home);
    forall i: nat
      ensures i in Participants(participant) <==> exists k :: Concerns(block, keys, i, k)
    {
      ParticipantAsks(block, shard, home, participant, i);
    }
    hide Participants; hide Concerns; hide Conflict;
    forall p, i: nat, k | 0 <= p < |trace| && trace[p].Launch? && i < trace[p].tx && Concerns(block, keys, i, k)
      && Concerns(block, keys, trace[p].tx, k)
      && (k in DeclaredWrites(block[i]) || k in DeclaredWrites(block[trace[p].tx]))
      ensures Complete(i) in trace[..p]
    {
      ConflictOf(block, shard, home, i, trace[p].tx, k);
    }
  }

  lemma ConflictOf(block: seq<Tx>, shard: Option<Shard>, home: map<Key, Shard>, i: nat, j: nat, k: Key)
    requires i < j && Concerns(block, TableKeys(block, shard, home), i, k)
    requires Concerns(block, TableKeys(block, shard, home), j, k)
    requires k in DeclaredWrites(block[i]) || k in DeclaredWrites(block[j])
    ensures Conflict(Demands(block, shard, home), i, j, k)
  {
    AsksFor(block, shard, home, i, k);
    AsksFor(block, shard, home, j, k);
    hide TableKeys; hide DemandOf; hide DeclaredReads; hide DeclaredWrites;
  }

  /** The manager and the loop together: fails exactly on an access list that is not canonical. */
  method DispatchBlock(block: seq<Tx>, shard: Option<Shard>, home: map<Key, Shard>) returns (r: Option<seq<Event>>)
    ensures r.Some? <==> forall t :: t in block ==> Canonical(t)
    ensures r.Some? ==> BlockHistory(block, TableKeys(block, shard, home), r.value)
    ensures r.Some? && shard == None ==> forall i: nat :: i < |block| ==> Launch(i) in r.value && Complete(i) in r.value
  {
    hide Canonical;
    for i := 0 to |block|
      invariant forall j :: 0 <= j < i ==> Canonical(block[j])
    {
      if !Canonical(block[i]) {
        assert block[i] in block;
        return None;
      }
    }
    hide SettledOutside; hide History; hide BlockHistory; hide TableKeys; hide DemandOf; hide Participants;
    var m := new LockManager(block, shard, home);
    assert m.Valid();
    hide Counted; hide OnlyFree; hide NoneEarly; hide Queues;
    ghost var participant := m.participant;
    var trace := Dispatch(m);
    InBlockTerms(block, shard, home, participant, trace);
    if shard == None {
      EverybodyRuns(block, trace);
    }
    r := Some(trace);
  }

  /** Without a shard nobody is left out: a canonical access list declares a key. */
  lemma EverybodyRuns(block: seq<Tx>, trace: seq<Event>)
    requires (forall i :: 0 <= i < |block| ==> Canonical(block[i])) && BlockHistory(block, AllDeclared(block), trace)
    ensures forall i: nat :: i < |block| ==> Launch(i) in trace && Complete(i) in trace
  {
    hide Canonical; hide DeclaredReads; hide DeclaredWrites;
    forall i: nat | i < |block|
      ensures Launch(i) in trace && Complete(i) in trace
    {
      var k := SomeKey(block[i]);
      assert Concerns(block, AllDeclared(block), i, k);
    }
  }

  lemma SomeKey(t: Tx) returns (k: Key)
    requires Canonical(t)
    ensures k in DeclaredKeys(t)
  {
    k := t.accessList[0].key;
    ModesDeclare(t, 0);
  }
}
