/** Transaction pool, block producer and the loop that turns a workload into blocks under
    virtual time. */
module BlockProduction {

  import opened Basics

  datatype Tx = Tx(id: Token, submit: int)

  datatype Entry = Entry(tx: Tx, admit: int)

  datatype Reason = ByCount | ByDrain | ByTime | ByEmpty

  /** A block hash, identified with what it is the digest of. */
  datatype Hash = Genesis(chain: Token) | Digest(height: nat, parent: Hash, cut: int, reason: Reason, ids: seq<Token>)

  datatype Pooled = Pooled(tx: Tx, admit: int, wait: nat)

  datatype Block = Block(height: nat, parent: Hash, hash: Hash, reason: Reason, poolBefore: nat, poolAfter: nat,
      txs: seq<Pooled>, cut: int)

  function Max(a: int, b: int): int {
    if a < b then b else a
  }

  // ---- What the pool lets in ----

  ghost predicate Earlier(asked: seq<Tx>, n: nat) {
    n < |asked| && exists j :: 0 <= j < n && asked[j].id == asked[n].id
  }

  /** Of everything submitted, what was admitted: not those that found the pool full and, with
      deduplication, no identifier a second time. */
  ghost function Kept(dedup: bool, asked: seq<Tx>, full: set<nat>, n: nat): seq<Tx>
    requires n <= |asked|
  {
    if n == 0 then [] else
      Kept(dedup, asked, full, n - 1) + if n - 1 in full || (dedup && Earlier(asked, n - 1)) then [] else [asked[n - 1]]
  }

  lemma {:induction false} KeptGrows(dedup: bool, asked: seq<Tx>, more: seq<Tx>, full: set<nat>, full': set<nat>,
      n: nat)
    requires n <= |asked| && forall i :: 0 <= i < n ==> (i in full <==> i in full')
    ensures Kept(dedup, asked + more, full', n) == Kept(dedup, asked, full, n)
  {
    if n > 0 {
      KeptGrows(dedup, asked, more, full, full', n - 1);
      assert (asked + more)[n - 1] == asked[n - 1];
      if Earlier(asked, n - 1) {
        var j :| 0 <= j < n - 1 && asked[j].id == asked[n - 1].id;
        assert (asked + more)[j].id == (asked + more)[n - 1].id;
      }
      if Earlier(asked + more, n - 1) {
        var j :| 0 <= j < n - 1 && (asked + more)[j].id == (asked + more)[n - 1].id;
        assert asked[j].id == asked[n - 1].id;
      }
    }
  }

  /** Without deduplication and with room, everything is admitted. */
  lemma {:induction false} KeptAll(asked: seq<Tx>, n: nat)
    requires n <= |asked|
    ensures Kept(false, asked, {}, n) == asked[..n]
  {
    if n > 0 {
      KeptAll(asked, n - 1);
      assert asked[..n] == asked[..n - 1] + [asked[n - 1]];
    }
  }

  ghost predicate HasId(txs: seq<Tx>, id: Token) {
    exists p :: 0 <= p < |txs| && txs[p].id == id
  }

  ghost predicate Among(asked: seq<Tx>, n: nat, tx: Tx) {
    n <= |asked| && exists i :: 0 <= i < n && asked[i] == tx
  }

  lemma {:induction false} KeptAmong(dedup: bool, asked: seq<Tx>, full: set<nat>, n: nat, p: nat)
    requires n <= |asked| && p < |Kept(dedup, asked, full, n)|
    ensures Among(asked, n, Kept(dedup, asked, full, n)[p])
  {
    if p < |Kept(dedup, asked, full, n - 1)| {
      KeptAmong(dedup, asked, full, n - 1, p);
      var i :| 0 <= i < n - 1 && asked[i] == Kept(dedup, asked, full, n)[p];
    }
  }

  /** With deduplication no identifier is admitted twice. */
  lemma {:induction false} KeptOnce(asked: seq<Tx>, full: set<nat>, n: nat, p: nat, r: nat)
    requires n <= |asked| && p < r < |Kept(true, asked, full, n)|
    ensures Kept(true, asked, full, n)[p].id != Kept(true, asked, full, n)[r].id
  {
    var before := Kept(true, asked, full, n - 1);
    if r < |before| {
      KeptOnce(asked, full, n - 1, p, r);
    } else {
      KeptAmong(true, asked, full, n - 1, p);
      var i :| 0 <= i < n - 1 && asked[i] == before[p];
      assert !Earlier(asked, n - 1);
    }
  }

  /** With room in the pool no identifier is missed. */
  lemma {:induction false} KeptEvery(dedup: bool, asked: seq<Tx>, n: nat, i: nat)
    requires i < n <= |asked|
    ensures HasId(Kept(dedup, asked, {}, n), asked[i].id)
  {
    var before, kept := Kept(dedup, asked, {}, n - 1), Kept(dedup, asked, {}, n);
    if i < n - 1 {
      KeptEvery(dedup, asked, n - 1, i);
      var p :| 0 <= p < |before| && before[p].id == asked[i].id;
      assert kept[p].id == asked[i].id;
    } else if dedup && Earlier(asked, i) {
      var j :| 0 <= j < i && asked[j].id == asked[i].id;
      KeptEvery(dedup, asked, n - 1, j);
      assert kept == before;
    } else {
      assert kept[|before|] == asked[i];
    }
  }

  function TxsOf(entries: seq<Entry>): seq<Tx> {
    seq(|entries|, i requires 0 <= i < |entries| => entries[i].tx)
  }

  class TxPool {
    const maxPoolSize: nat
    const dedup: bool
    var queue: seq<Entry>
    var seen: set<Token>
    var admittedCount: nat
    var rejectedCount: nat
    var selectedCount: nat
    /** Everything submitted, everything admitted, and the submissions that found no room. */
    ghost var asked: seq<Tx>
    ghost var log: seq<Entry>
    ghost var full: set<nat>

    ghost predicate Valid()
      reads this
    {
      && maxPoolSize > 0 && Books(dedup, queue, seen, asked, log, full)
      && admittedCount == |log| && selectedCount == |log| - |queue| && rejectedCount == |asked| - |log|
    }

    constructor (capacity: int, dedup: bool)
      ensures Valid() && queue == [] && asked == [] && log == [] && full == {} && this.dedup == dedup
      ensures maxPoolSize == (if capacity <= 0 then 100000 else capacity)
    {
      maxPoolSize := if capacity <= 0 then 100000 else capacity;
      this.dedup := dedup;
      queue, seen, admittedCount, rejectedCount, selectedCount := [], {}, 0, 0, 0;
      asked, log, full := [], [], {};
    }

    method Admit(tx: Tx, now: int) returns (ok: bool)
      requires Valid()
      modifies this
      ensures Valid() && asked == old(asked) + [tx]
      ensures ok <==> !(dedup && HasId(old(asked), tx.id)) && |old(queue)| < maxPoolSize
      ensures queue == old(queue) + (if ok then [Entry(tx, now)] else [])
      ensures log == old(log) + (if ok then [Entry(tx, now)] else [])
      ensures full == old(full) + (if !(dedup && HasId(old(asked), tx.id))
          && |old(queue)| >= maxPoolSize then {|old(asked)|} else {})
    {
      hide Kept; hide HasId; hide TxsOf; hide Books;
      AskOne(dedup, queue, seen, asked, log, full, tx, now);
      if dedup && tx.id in seen {
        rejectedCount := rejectedCount + 1;
        asked := asked + [tx];
        return false;
      }
      if |queue| >= maxPoolSize {
        rejectedCount := rejectedCount + 1;
        if dedup {
          seen := seen + {tx.id};
        }
        asked, full := asked + [tx], full + {|asked|};
        return false;
      }
      queue := queue + [Entry(tx, now)];
      if dedup {
        seen := seen + {tx.id};
      }
      admittedCount := admittedCount + 1;
      asked, log := asked + [tx], log + [Entry(tx, now)];
      return true;
    }

    /** Takes the oldest entries out of the queue. */
    method SelectForBlock(maxTx: int, cut: int) returns (selected: seq<Pooled>)
      requires Valid()
      modifies `queue, `selectedCount
      ensures Valid()
      ensures var limit := Limit(maxTx, |old(queue)|);
        selected == Taken(old(queue), limit, cut) && queue == old(queue)[limit..]
    {
      var limit := if Max(1, maxTx) > |queue| then |queue| else Max(1, maxTx);
      selected := [];
      hide Kept; hide HasId; hide TxsOf;
      assert old(queue)[0..] == old(queue);
      for i := 0 to limit
        invariant selected == Taken(old(queue), i, cut) && queue == old(queue)[i..] && Valid()
        invariant log == old(log) && asked == old(asked) && full == old(full)
      {
        var entry := queue[0];
        TakeOne(dedup, queue, seen, asked, log, full);
        queue := queue[1..];
        selectedCount := selectedCount + 1;
        selected := selected + [Pooled(entry.tx, entry.admit, Max(0, cut - entry.admit))];
      }
    }
  }

  function Limit(maxTx: int, size: nat): (n: nat)
    ensures n <= size && (size > 0 ==> n > 0) && (maxTx >= 1 ==> n <= maxTx && (n < size ==> n == maxTx))
  {
    if Max(1, maxTx) > size then size else Max(1, maxTx)
  }

  /** The first `n` queue entries as they appear in a block cut at `cut`. */
  function Taken(queue: seq<Entry>, n: nat, cut: int): (r: seq<Pooled>)
    requires n <= |queue|
    ensures |r| == n
  {
    seq(n, i requires 0 <= i < n => Pooled(queue[i].tx, queue[i].admit, Max(0, cut - queue[i].admit)))
  }

  lemma TakeNothing(queue: seq<Entry>, maxTx: int, cut: int)
    ensures Limit(maxTx, |queue|) <= |queue|
    ensures (|queue| == 0 ==> Taken(queue, Limit(maxTx, |queue|), cut) == [] && queue[Limit(maxTx, |queue|)..] == queue)
  {
  }

  lemma TakeOne(dedup: bool, queue: seq<Entry>, seen: set<Token>, asked: seq<Tx>, log: seq<Entry>, full: set<nat>)
    requires Books(dedup, queue, seen, asked, log, full) && queue != []
    ensures Books(dedup, queue[1..], seen, asked, log, full)
  {
    assert log[|log| - |queue|..][1..] == log[|log| - |queue| + 1..];
  }

  /** The queue is the tail of what was admitted, and that is what should be admitted. */
  ghost predicate Books(dedup: bool, queue: seq<Entry>, seen: set<Token>, asked: seq<Tx>, log: seq<Entry>,
      full: set<nat>) {
    && |queue| <= |log| <= |asked| && queue == log[|log| - |queue|..]
    && TxsOf(log) == Kept(dedup, asked, full, |asked|)
    && (forall id :: id in seen <==> dedup && HasId(asked, id))
    && (forall i :: i in full ==> i < |asked|)
  }

  lemma AskOne(dedup: bool, queue: seq<Entry>, seen: set<Token>, asked: seq<Tx>, log: seq<Entry>, full: set<nat>,
      tx: Tx, now: int)
    requires Books(dedup, queue, seen, asked, log, full)
    ensures |queue| <= |log| <= |asked| && (tx.id in seen <==> dedup && HasId(asked, tx.id))
    ensures var asked', seen' := asked + [tx], if dedup then seen + {tx.id} else seen;
      && (tx.id in seen ==> Books(dedup, queue, seen, asked', log, full))
      && (tx.id !in seen
        ==> Books(dedup, queue, seen', asked', log, full + {|asked|})
            && Books(dedup, queue + [Entry(tx, now)], seen', asked', log + [Entry(tx, now)], full))
  {
    KeptNext(dedup, asked, full, tx);
    hide Kept; hide HasId;
    assert TxsOf(log + [Entry(tx, now)]) == TxsOf(log) + [tx];
    var log' := log + [Entry(tx, now)];
    assert log'[|log| - |queue|..] == queue + [Entry(tx, now)];
  }

  lemma KeptNext(dedup: bool, asked: seq<Tx>, full: set<nat>, tx: Tx)
    requires forall i :: i in full ==> i < |asked|
    ensures var kept, asked' := Kept(dedup, asked, full, |asked|), asked + [tx];
      && (forall id :: HasId(asked', id) <==> HasId(asked, id) || id == tx.id)
      && Kept(dedup, asked', full, |asked'|) == kept + (if dedup && HasId(asked, tx.id) then [] else [tx])
      && Kept(dedup, asked', full + {|asked|}, |asked'|) == kept
  {
    var asked', n := asked + [tx], |asked|;
    KeptGrows(dedup, asked, [tx], full, full, n);
    KeptGrows(dedup, asked, [tx], full, full + {n}, n);
    forall id | HasId(asked, id)
      ensures HasId(asked', id)
    {
      var p :| 0 <= p < n && asked[p].id == id;
      assert asked'[p].id == id;
    }
    forall id | HasId(asked', id) && id != tx.id
      ensures HasId(asked, id)
    {
      var p :| 0 <= p < n + 1 && asked'[p].id == id;
      assert asked[p].id == id;
    }
    assert asked'[n] == tx;
    if Earlier(asked', n) {
      var j :| 0 <= j < n && asked'[j].id == tx.id;
      assert asked[j].id == tx.id;
    }
    if HasId(asked, tx.id) {
      var p :| 0 <= p < n && asked[p].id == tx.id;
      assert asked'[p].id == asked'[n].id;
    }
  }

  // ---- Cutting blocks ----

  class BlockProducer {
    const interval: int
    const maxTx: nat
    const emptyEnabled: bool
    var parent: Hash
    var nextHeight: nat
    var lastCut: int

    ghost predicate Valid() {
      interval >= 1 && maxTx >= 1
    }

    constructor (chain: Token, interval: int, maxTx: int, emptyEnabled: bool)
      ensures Valid() && this.interval == Max(1, interval) && this.maxTx == Max(1, maxTx)
      ensures this.emptyEnabled == emptyEnabled
      ensures parent == Genesis(chain) && nextHeight == 1 && lastCut == 0
    {
      this.interval, this.maxTx, this.emptyEnabled := Max(1, interval), Max(1, maxTx), emptyEnabled;
      parent, nextHeight, lastCut := Genesis(chain), 1, 0;
    }

    /** Whether, and why, a block is due. */
    function ShouldCut(now: int, poolSize: nat, done: bool): (r: Option<Reason>)
      requires Valid()
      reads this
      ensures now - lastCut >= interval ==> (r.None? <==> poolSize == 0 && !emptyEnabled)
      ensures now - lastCut < interval ==> (r.Some? <==> poolSize >= maxTx || (poolSize > 0 && done))
      ensures r == Some(ByCount) <==> poolSize >= maxTx
      ensures r == Some(ByDrain) <==> 0 < poolSize < maxTx && done
      ensures r == Some(ByTime) ==> 0 < poolSize < maxTx && !done && now - lastCut >= interval
      ensures r == Some(ByEmpty) ==> poolSize == 0 && emptyEnabled
    {
      if poolSize >= maxTx then Some(ByCount)
      else if poolSize > 0 && done then Some(ByDrain)
      else if poolSize > 0 && now - lastCut >= interval then Some(ByTime)
      else if poolSize == 0 && emptyEnabled && now - lastCut >= interval then Some(ByEmpty)
      else None
    }

    /** Takes what fits out of the pool and chains the block to the last one. */
    method ProduceBlock(now: int, pool: TxPool, reason: Reason) returns (block: Block)
      requires Valid() && pool.Valid()
      modifies `parent, `nextHeight, `lastCut, pool`queue, pool`selectedCount
      ensures pool.Valid() && nextHeight == old(nextHeight) + 1 && lastCut == now && parent == block.hash
      ensures var limit := Limit(maxTx, |old(pool.queue)|);
        && block.txs == Taken(old(pool.queue), limit, now) && pool.queue == old(pool.queue)[limit..]
        && block.poolBefore == |old(pool.queue)| && block.poolAfter == |pool.queue|
      ensures block.height == old(nextHeight) && block.parent == old(parent) && block.reason == reason
      ensures block.cut == now
      ensures block.hash == Digest(block.height, block.parent, now, reason, IdsOf(block.txs))
    {
      hide *;
      var before := |pool.queue|;
      var selected := [];
      if before > 0 {
        selected := pool.SelectForBlock(maxTx, now);
      } else {
        TakeNothing(pool.queue, maxTx, now);
      }
      block := Block(nextHeight, parent, Digest(nextHeight, parent, now, reason, IdsOf(selected)), reason, before,
        |pool.queue|, selected, now);
      parent, nextHeight, lastCut := block.hash, nextHeight + 1, now;
    }
  }

  function IdsOf(txs: seq<Pooled>): seq<Token> {
    seq(|txs|, i requires 0 <= i < |txs| => txs[i].tx.id)
  }

  // ---- From a workload to blocks ----

  function TxsIn(txs: seq<Pooled>): seq<Tx> {
    seq(|txs|, i requires 0 <= i < |txs| => txs[i].tx)
  }

  /** The transactions of all blocks, one after another. */
  ghost function Flat(blocks: seq<Block>): seq<Tx> {
    if blocks == [] then [] else Flat(blocks[..|blocks| - 1]) + TxsIn(blocks[|blocks| - 1].txs)
  }

  ghost function LastHash(blocks: seq<Block>, parent: Hash): Hash {
    if blocks == [] then parent else blocks[|blocks| - 1].hash
  }

  ghost function LastCut(blocks: seq<Block>, last: int): int {
    if blocks == [] then last else blocks[|blocks| - 1].cut
  }

  /** Heights without gaps, each block on the hash of the one before, cut times at least an
      interval apart, sizes within the limit. */
  ghost predicate Chained(blocks: seq<Block>, height: nat, parent: Hash, last: int, interval: int, maxTx: nat) {
    forall i :: 0 <= i < |blocks| ==> Follows(blocks[..i], blocks[i], height, parent, last, interval, maxTx)
  }

  ghost predicate Follows(before: seq<Block>, b: Block, height: nat, parent: Hash, last: int, interval: int,
      maxTx: nat) {
    && b.height == height + |before| && b.parent == LastHash(before, parent)
      && b.cut >= LastCut(before, last) + interval
    && b.hash == Digest(b.height, b.parent, b.cut, b.reason, IdsOf(b.txs))
    && |b.txs| <= maxTx && (b.reason == ByCount <==> |b.txs| == maxTx) && (b.reason == ByEmpty <==> b.txs == [])
  }

  lemma ChainNext(blocks: seq<Block>, b: Block, height: nat, parent: Hash, last: int, interval: int, maxTx: nat)
    requires Chained(blocks, height, parent, last, interval, maxTx)
    requires Follows(blocks, b, height, parent, last, interval, maxTx)
    ensures Chained(blocks + [b], height, parent, last, interval, maxTx)
  {
    hide Follows;
    var more := blocks + [b];
    forall i | 0 <= i < |more|
      ensures Follows(more[..i], more[i], height, parent, last, interval, maxTx)
    {
      assert more[..i] == blocks[..i];
      assert blocks[..|blocks|] == blocks;
    }
  }

  /** Cutting a block moves transactions from the queue to the chain and loses none. */
  lemma CutConserves(blocks: seq<Block>, b: Block, queue: seq<Entry>, n: nat)
    requires n <= |queue| && b.txs == Taken(queue, n, b.cut)
    ensures Flat(blocks + [b]) + TxsOf(queue[n..]) == Flat(blocks) + TxsOf(queue)
  {
    assert (blocks + [b])[..|blocks|] == blocks;
    assert TxsIn(b.txs) + TxsOf(queue[n..]) == TxsOf(queue);
  }

  /** Transaction `j` comes at least an interval after the one before it. */
  ghost predicate Gap(txs: seq<Tx>, j: nat, interval: int) {
    0 < j < |txs| && txs[j - 1].submit >= 0 && txs[j].submit - txs[j - 1].submit >= interval
  }

  /** From the first transaction admitted on, the stretch has no gap. */
  ghost predicate Filled(txs: seq<Tx>, start: nat, first: nat, next: nat, interval: int) {
    start <= first <= next <= |txs| && forall j :: first < j < next ==> !Gap(txs, j, interval)
  }

  lemma FilledNext(txs: seq<Tx>, start: nat, first: nat, next: nat, interval: int, waiting: bool)
    requires Filled(txs, start, first, next, interval) && next < |txs|
    requires (if waiting then next == start || !Gap(txs, next, interval) else first == next)
    ensures Filled(txs, start, first, next + 1, interval) && Filled(txs, start, next + 1, next + 1, interval)
  {
  }

  /** The time to cut: an interval after the last block, or when the last transaction came. */
  ghost predicate FilledAt(txs: seq<Tx>, start: nat, next: nat, last: int, interval: int, now: int) {
    && start <= next <= |txs|
    && if next == start || next == |txs| then
      now == last + interval || (next > start && now == Max(last + interval, txs[next - 1].submit))
       else now == Max(last + interval, txs[next - 1].submit)
  }

  /** Lets transactions in until a block is full, the workload ends, or the next transaction
      is an interval away. */
  method Fill(txs: seq<Tx>, start: nat, pool: TxPool, last: int, interval: int, maxTx: nat)
      returns (next: nat, now: int, idle: bool, lastAdmit: int, ghost first: nat)
    requires pool.Valid() && start <= |txs| && interval >= 1 && maxTx >= 1
    modifies pool
    ensures pool.Valid() && start <= next <= |txs| && pool.asked == old(pool.asked) + txs[start..next]
    ensures |old(pool.log)| <= |pool.log| && pool.log[..|old(pool.log)|] == old(pool.log)
    ensures pool.queue == old(pool.queue) + pool.log[|old(pool.log)|..]
    ensures |pool.queue| <= Max(|old(pool.queue)|, maxTx) && |pool.queue| - |old(pool.queue)| <= next - start
    ensures start < |txs| && |old(pool.queue)| < maxTx ==> next > start
    ensures |pool.queue| == 0 ==> next == |txs|
    ensures now >= last + interval && (idle ==> 0 < |pool.queue| < maxTx && next < |txs|)
    ensures maxTx <= pool.maxPoolSize ==> pool.full == old(pool.full)
    ensures lastAdmit == (if next > start then txs[next - 1].submit else -1)
    ensures FilledAt(txs, start, next, last, interval, now)
    ensures Filled(txs, start, first, next, interval)
    ensures (next < |txs| ==> |pool.queue| >= maxTx || Gap(txs, next, interval))
    ensures old(pool.queue) == [] && pool.queue != [] ==> first < next && pool.queue[0].tx == txs[first]
  {
    next, now, idle, lastAdmit, first := start, last + interval, false, -1, start;
    hide Books; hide HasId;
    while next < |txs|
      invariant pool.Valid() && start <= next <= |txs| && pool.asked == old(pool.asked) + txs[start..next]
      invariant |old(pool.log)| <= |pool.log| && pool.log[..|old(pool.log)|] == old(pool.log)
      invariant pool.queue == old(pool.queue) + pool.log[|old(pool.log)|..]
      invariant |pool.queue| <= Max(|old(pool.queue)|, maxTx) && |pool.queue| - |old(pool.queue)| <= next - start
      invariant if next == start then lastAdmit == -1 && pool.queue == old(pool.queue) else |pool.queue| < maxTx
      invariant now == last + interval && !idle && (maxTx <= pool.maxPoolSize ==> pool.full == old(pool.full))
      invariant lastAdmit == (if next > start then txs[next - 1].submit else -1)
      invariant Filled(txs, start, first, next, interval)
      invariant if pool.queue == [] then first == next else old(pool.queue) == [] ==>
        first < next && pool.queue[0].tx == txs[first]
    {
      var tx := txs[next];
      if |pool.queue| >= maxTx {
        break;
      }
      if |pool.queue| > 0 && lastAdmit >= 0 && tx.submit - lastAdmit >= interval {
        now := Max(last + interval, lastAdmit);
        idle := true;
        break;
      }
      FilledNext(txs, start, first, next, interval, |pool.queue| > 0);
      var ok := pool.Admit(tx, tx.submit);
      assert txs[start..next + 1] == txs[start..next] + [tx];
      first := if pool.queue == [] then next + 1 else first;
      lastAdmit := tx.submit;
      next := next + 1;
      if |pool.queue| >= maxTx {
        now := Max(last + interval, tx.submit);
        break;
      }
    }
  }

  /** What holds between two rounds of block production that began at block `height`. */
  ghost predicate Produced(blocks: seq<Block>, height: nat, parent: Hash, last: int, interval: int, maxTx: nat,
      nextHeight: nat, hash: Hash, cut: int) {
    && Chained(blocks, height, parent, last, interval, maxTx)
    && nextHeight == height + |blocks| && hash == LastHash(blocks, parent) && cut == LastCut(blocks, last)
  }

  /** Only the last block may be empty, and only once nothing is left to do. */
  ghost predicate EmptyLast(blocks: seq<Block>, over: bool) {
    forall i :: 0 <= i < |blocks| && blocks[i].txs == [] ==> i == |blocks| - 1 && over
  }

  /** Everything admitted since the log had `mark` entries is in a block or still queued. */
  ghost predicate Balanced(blocks: seq<Block>, queue: seq<Entry>, queue0: seq<Entry>, log: seq<Entry>, mark: nat) {
    mark <= |log| && Flat(blocks) + TxsOf(queue) == TxsOf(queue0) + TxsOf(log[mark..])
  }

  /** The log has only grown. */
  ghost predicate Extends(log: seq<Entry>, log': seq<Entry>) {
    |log| <= |log'| && log'[..|log|] == log
  }

  /** A block cut from `queue` that leaves `rest`, by a producer in the given state. */
  ghost predicate CutFrom(b: Block, queue: seq<Entry>, rest: seq<Entry>, nextHeight: nat, parent: Hash, lastCut: int,
      interval: int, maxTx: nat) {
    && b.height == nextHeight && b.parent == parent && b.cut >= lastCut + interval
    && b.hash == Digest(b.height, b.parent, b.cut, b.reason, IdsOf(b.txs))
    && (b.reason == ByCount <==> |queue| >= maxTx) && (b.reason == ByEmpty <==> queue == [])
    && b.txs == Taken(queue, Limit(maxTx, |queue|), b.cut) && rest == queue[Limit(maxTx, |queue|)..]
      && b.poolAfter == |rest|
  }

  /** One round: fill the pool and cut a block if one is due. */
  method Round(txs: seq<Tx>, start: nat, pool: TxPool, producer: BlockProducer)
      returns (next: nat, made: Option<Block>, ghost first: nat)
    requires pool.Valid() && producer.Valid() && start <= |txs| && (start < |txs| || |pool.queue| > 0)
    modifies pool, producer
    ensures pool.Valid() && start <= next <= |txs| && pool.asked == old(pool.asked) + txs[start..next]
    ensures Extends(old(pool.log), pool.log)
    ensures producer.maxTx <= pool.maxPoolSize ==> pool.full == old(pool.full)
    ensures |txs| - next + |pool.queue| < |txs| - start + |old(pool.queue)| && |pool.queue| <= |old(pool.queue)|
    ensures var mid := old(pool.queue) + pool.log[|old(pool.log)|..];
      match made
      case None => pool.queue == mid && producer.nextHeight == old(producer.nextHeight)
        && producer.parent == old(producer.parent) && producer.lastCut == old(producer.lastCut)
      case Some(b) => CutFrom(b, mid, pool.queue, old(producer.nextHeight), old(producer.parent),
        old(producer.lastCut), producer.interval, producer.maxTx)
    ensures made.Some?
      ==> producer.nextHeight == old(producer.nextHeight) + 1
          && producer.parent == made.value.hash && producer.lastCut == made.value.cut
    ensures made.Some? && made.value.txs == [] ==> next == |txs| && pool.queue == [] && producer.emptyEnabled
    ensures made.None? ==> next == |txs| && pool.queue == [] && !producer.emptyEnabled
    ensures made.Some? && old(pool.queue) == []
        ==> CutRule(txs, made.value, start, first, next, old(producer.lastCut), producer.interval, producer.maxTx)
  {
    hide Books; hide Kept; hide Taken; hide Max; hide TxsOf; hide IdsOf; hide HasId;
    var now, idle, lastAdmit;
    next, now, idle, lastAdmit, first := Fill(txs, start, pool, producer.lastCut, producer.interval, producer.maxTx);
    ghost var now0 := now;
    var done := next >= |txs|;
    if done && lastAdmit >= 0 {
      now := Max(producer.lastCut + producer.interval, lastAdmit);
      MaxAtLeast(producer.lastCut + producer.interval, lastAdmit);
    }
    MaxAtLeast(|old(pool.queue)|, producer.maxTx);
    CutTime(txs, start, next, producer.lastCut, producer.interval, now0, now);
    ghost var filled := pool.queue;
    if |pool.queue| == 0 && !producer.emptyEnabled {
      made := None;
      return;
    }
    var due := producer.ShouldCut(now, |pool.queue|, done);
    if idle && |pool.queue| > 0 && |pool.queue| < producer.maxTx {
      due := Some(ByTime);
    }
    if due.None? {
      made := None;
      return;
    }
    var block := producer.ProduceBlock(now, pool, due.value);
    if |block.txs| == 0 && !producer.emptyEnabled {
      made := None;
      return;
    }
    made := Some(block);
    FirstTaken(filled, Limit(producer.maxTx, |filled|), now);
  }

  lemma FirstTaken(queue: seq<Entry>, n: nat, cut: int)
    requires n <= |queue|
    ensures |Taken(queue, n, cut)| == n && (n > 0 ==> Taken(queue, n, cut)[0].tx == queue[0].tx)
  {
  }

  /** When and why a block is cut: it is full, or the workload is over, or the next transaction
      comes an interval later; never after such a gap; and as soon as the interval and the
      arrival of its last transaction allow. */
  ghost predicate CutRule(txs: seq<Tx>, b: Block, start: nat, first: nat, next: nat, last: int, interval: int,
      maxTx: nat) {
    && Filled(txs, start, first, next, interval) && (next < |txs| ==> |b.txs| == maxTx || Gap(txs, next, interval))
    && (b.txs != [] ==> first < next && b.txs[0].tx == txs[first]) && CutAt(txs, start, next, last, interval, b.cut)
    && (b.reason == ByDrain <==> next == |txs| && 0 < |b.txs| < maxTx)
    && (b.reason == ByTime ==> Gap(txs, next, interval))
  }

  ghost predicate CutAt(txs: seq<Tx>, start: nat, next: nat, last: int, interval: int, cut: int) {
    && start <= next <= |txs|
    && if next == start then cut == last + interval
      else cut == Max(last + interval, txs[next - 1].submit) || (txs[next - 1].submit < 0 && cut == last + interval)
  }

  lemma CutTime(txs: seq<Tx>, start: nat, next: nat, last: int, interval: int, now0: int, now: int)
    requires FilledAt(txs, start, next, last, interval, now0)
    requires if next == |txs| && next > start
        && txs[next - 1].submit >= 0 then now == Max(last + interval, txs[next - 1].submit) else now == now0
    ensures CutAt(txs, start, next, last, interval, now)
  {
  }

  lemma MaxAtLeast(a: int, b: int)
    ensures Max(a, b) >= a && Max(a, b) >= b && (Max(a, b) == a || Max(a, b) == b)
  {
  }

  lemma BalancedMore(blocks: seq<Block>, queue: seq<Entry>, queue0: seq<Entry>, log: seq<Entry>, log': seq<Entry>,
      mark: nat)
    requires Balanced(blocks, queue, queue0, log, mark) && Extends(log, log')
    ensures Balanced(blocks, queue + log'[|log|..], queue0, log', mark)
  {
    var more := log'[|log|..];
    assert log'[mark..] == log[mark..] + more;
    assert TxsOf(queue + more) == TxsOf(queue) + TxsOf(more) && TxsOf(log'[mark..]) == TxsOf(log[mark..]) + TxsOf(more);
    assert Flat(blocks) + (TxsOf(queue) + TxsOf(more)) == (Flat(blocks) + TxsOf(queue)) + TxsOf(more);
    assert TxsOf(queue0) + (TxsOf(log[mark..]) + TxsOf(more)) == (TxsOf(queue0) + TxsOf(log[mark..])) + TxsOf(more);
  }

  lemma BalancedCut(blocks: seq<Block>, b: Block, queue: seq<Entry>, queue0: seq<Entry>, log: seq<Entry>, mark: nat,
      n: nat)
    requires Balanced(blocks, queue, queue0, log, mark) && n <= |queue| && b.txs == Taken(queue, n, b.cut)
    ensures Balanced(blocks + [b], queue[n..], queue0, log, mark)
  {
    CutConserves(blocks, b, queue, n);
  }

  lemma ProducedNext(blocks: seq<Block>, made: Option<Block>, queue: seq<Entry>, rest: seq<Entry>, height: nat,
      parent: Hash, last: int, interval: int, maxTx: nat, nextHeight: nat, hash: Hash, cut: int, nextHeight': nat,
      hash': Hash, cut': int)
    requires Produced(blocks, height, parent, last, interval, maxTx, nextHeight, hash, cut) && maxTx >= 1
    requires match made
      case None => nextHeight' == nextHeight && hash' == hash && cut' == cut
      case Some(b) =>
        && CutFrom(b, queue, rest, nextHeight, hash, cut, interval, maxTx)
        && nextHeight' == nextHeight + 1 && hash' == b.hash && cut' == b.cut
    ensures Produced(Append(blocks, made), height, parent, last, interval, maxTx, nextHeight', hash', cut')
  {
    if made.Some? {
      assert Follows(blocks, made.value, height, parent, last, interval, maxTx);
      ChainNext(blocks, made.value, height, parent, last, interval, maxTx);
    }
  }

  lemma ExtendsAgain(log: seq<Entry>, log1: seq<Entry>, log2: seq<Entry>)
    requires Extends(log, log1) && Extends(log1, log2)
    ensures Extends(log, log2)
  {
    assert log2[..|log|] == log2[..|log1|][..|log|];
  }

  /** Between two rounds: everything about the blocks so far and the pool. */
  ghost predicate Steady(blocks: seq<Block>, next: nat, txs: seq<Tx>, asked0: seq<Tx>, asked: seq<Tx>,
      queue0: seq<Entry>, queue: seq<Entry>, log0: seq<Entry>, log: seq<Entry>) {
    && next <= |txs| && asked == asked0 + txs[..next] && Extends(log0, log)
      && Balanced(blocks, queue, queue0, log, |log0|)
    && (queue0 == [] ==> queue == [] && forall i :: 0 <= i < |blocks| ==> blocks[i].poolAfter == 0)
  }

  function Append(blocks: seq<Block>, made: Option<Block>): seq<Block> {
    if made.Some? then blocks + [made.value] else blocks
  }

  lemma SteadyNext(blocks: seq<Block>, made: Option<Block>, start: nat, next: nat, txs: seq<Tx>, asked0: seq<Tx>,
      asked: seq<Tx>, asked': seq<Tx>, queue0: seq<Entry>, queue: seq<Entry>, queue': seq<Entry>, log0: seq<Entry>,
      log: seq<Entry>, log': seq<Entry>, nextHeight: nat, parent: Hash, lastCut: int, interval: int, maxTx: nat)
    requires Steady(blocks, start, txs, asked0, asked, queue0, queue, log0, log)
    requires start <= next <= |txs| && asked' == asked + txs[start..next] && Extends(log, log') && |queue'| <= |queue|
    requires match made
      case None => queue' == queue + log'[|log|..]
      case Some(b) => CutFrom(b, queue + log'[|log|..], queue', nextHeight, parent, lastCut, interval, maxTx)
    ensures Steady(Append(blocks, made), next, txs, asked0, asked', queue0, queue', log0, log')
  {
    assert txs[..next] == txs[..start] + txs[start..next];
    ExtendsAgain(log0, log, log');
    var mid := queue + log'[|log|..];
    BalancedMore(blocks, queue, queue0, log, log', |log0|);
    if made.Some? {
      BalancedCut(blocks, made.value, mid, queue0, log', |log0|, Limit(maxTx, |mid|));
    }
  }

  /** `produceBlocksFromTxPool`. It terminates without any condition on times or sizes. */
  method ProduceBlocks(txs: seq<Tx>, pool: TxPool, producer: BlockProducer)
      returns (blocks: seq<Block>, ghost spans: seq<(nat, nat)>)
    requires pool.Valid() && producer.Valid()
    modifies pool, producer
    ensures pool.Valid() && pool.queue == [] && pool.asked == old(pool.asked) + txs && Extends(old(pool.log), pool.log)
    ensures Flat(blocks) == TxsOf(old(pool.queue)) + TxsOf(pool.log[|old(pool.log)|..])
    ensures old(pool.asked) == [] ==> Flat(blocks) == Kept(pool.dedup, txs, pool.full, |txs|)
    ensures Chained(blocks, old(producer.nextHeight), old(producer.parent), old(producer.lastCut), producer.interval,
        producer.maxTx)
    ensures EmptyLast(blocks, producer.emptyEnabled)
    ensures old(pool.queue) == [] ==> forall i :: 0 <= i < |blocks| ==> blocks[i].poolAfter == 0
    ensures producer.maxTx <= pool.maxPoolSize ==> pool.full == old(pool.full)
    ensures old(pool.queue) == []
        ==> Spanned(txs, blocks, spans, old(producer.lastCut), producer.interval, producer.maxTx)
    ensures old(pool.queue) == [] && producer.emptyEnabled ==> SpanEnd(spans) == |txs|
  {
    hide *;
    blocks, spans := [], [];
    var next := 0;
    ghost var height, parent, last := producer.nextHeight, producer.parent, producer.lastCut;
    ghost var seen0, full0 := pool.seen, pool.full;
    OpenBooks(pool);
    Begin(txs, pool.asked, pool.queue, pool.log, height, parent, last, producer.interval, producer.maxTx);
    while next < |txs| || |pool.queue| > 0
      invariant pool.Valid() && producer.Valid()
      invariant Steady(blocks, next, txs, old(pool.asked), pool.asked, old(pool.queue), pool.queue, old(pool.log),
          pool.log)
      invariant next <= |txs|
      invariant Produced(blocks, height, parent, last, producer.interval, producer.maxTx, producer.nextHeight,
          producer.parent, producer.lastCut)
      invariant EmptyLast(blocks, producer.emptyEnabled && next == |txs| && pool.queue == [])
      invariant producer.maxTx <= pool.maxPoolSize ==> pool.full == old(pool.full)
      invariant old(pool.queue) == [] ==>
        && pool.queue == [] && Spanned(txs, blocks, spans, last, producer.interval, producer.maxTx)
        && (next < |txs| || producer.emptyEnabled ==> SpanEnd(spans) == next)
      decreases |txs| - next + |pool.queue|
    {
      ghost var asked, queue, log, nextHeight, hash, cut := pool.asked, pool.queue, pool.log, producer.nextHeight,
        producer.parent, producer.lastCut;
      ghost var start := next;
      var made;
      ghost var first;
      next, made, first := Round(txs, next, pool, producer);
      Longer(log, pool.log);
      if old(pool.queue) == [] {
        ProducedCut(blocks, height, parent, last, producer.interval, producer.maxTx, nextHeight, hash, cut);
        SpannedNext(txs, blocks, spans, made, start, first, next, last, cut, producer.interval, producer.maxTx);
        SteadyEmpty(blocks, start, txs, old(pool.asked), asked, old(pool.queue), queue, old(pool.log), log);
      }
      spans := if made.Some? then spans + [(first, next)] else spans;
      SteadyNext(blocks, made, start, next, txs, old(pool.asked), asked, pool.asked, old(pool.queue), queue,
        pool.queue, old(pool.log), log, pool.log, nextHeight, hash, cut, producer.interval, producer.maxTx);
      AtLeastOne(producer);
      ProducedNext(blocks, made, queue + pool.log[|log|..], pool.queue, height, parent, last, producer.interval,
        producer.maxTx, nextHeight, hash, cut, producer.nextHeight, producer.parent, producer.lastCut);
      NotYetEmpty(blocks, made, producer.emptyEnabled && next == |txs| && pool.queue == []);
      blocks := Append(blocks, made);
    }
    Finish(blocks, txs, next, old(pool.asked), pool.asked, old(pool.queue), pool.queue, old(pool.log), pool.log,
      height, parent, last, producer.interval, producer.maxTx, producer.nextHeight, producer.parent, producer.lastCut,
      producer.emptyEnabled);
    OpenBooks(pool);
    FromScratch(pool.dedup, old(pool.queue), seen0, old(pool.asked), old(pool.log), full0, pool.queue, pool.seen,
      pool.asked, pool.log, pool.full, txs);
  }

  lemma Longer(log: seq<Entry>, log': seq<Entry>)
    requires Extends(log, log')
    ensures |log| <= |log'|
  {
  }

  lemma OpenBooks(pool: TxPool)
    requires pool.Valid()
    ensures Books(pool.dedup, pool.queue, pool.seen, pool.asked, pool.log, pool.full)
  {
  }

  /** For a new pool, what went into blocks is what the pool lets in of the workload. */
  lemma FromScratch(dedup: bool, queue0: seq<Entry>, seen0: set<Token>, asked0: seq<Tx>, log0: seq<Entry>,
      full0: set<nat>, queue: seq<Entry>, seen: set<Token>, asked: seq<Tx>, log: seq<Entry>, full: set<nat>,
      txs: seq<Tx>)
    requires Books(dedup, queue0, seen0, asked0, log0, full0) && Books(dedup, queue, seen, asked, log, full)
    requires asked == asked0 + txs
    ensures asked0 == []
      ==> log0 == [] && queue0 == [] && TxsOf(queue0) + TxsOf(log[|log0|..]) == Kept(dedup, txs, full, |txs|)
  {
    if asked0 == [] {
      assert log[0..] == log && asked == txs;
      assert TxsOf([]) + TxsOf(log) == TxsOf(log);
    }
  }

  /** Where the last stretch of the workload ended. */
  ghost function SpanEnd(spans: seq<(nat, nat)>): nat {
    if spans == [] then 0 else spans[|spans| - 1].1
  }

  /** Block `i` takes the stretch of the workload up to `spans[i].1`, by the cut rule. */
  ghost predicate Spanned(txs: seq<Tx>, blocks: seq<Block>, spans: seq<(nat, nat)>, last: int, interval: int,
      maxTx: nat) {
    |spans| == |blocks| && forall i :: 0 <= i < |blocks| ==> SpanAt(txs, blocks, spans, last, interval, maxTx, i)
  }

  ghost predicate SpanAt(txs: seq<Tx>, blocks: seq<Block>, spans: seq<(nat, nat)>, last: int, interval: int,
      maxTx: nat, i: nat)
    requires |spans| == |blocks|
  {
    && i < |blocks|
    && CutRule(txs, blocks[i], if i == 0 then 0 else spans[i - 1].1, spans[i].0, spans[i].1, if i == 0 then last
      else blocks[i - 1].cut, interval, maxTx)
  }

  lemma SpannedNext(txs: seq<Tx>, blocks: seq<Block>, spans: seq<(nat, nat)>, made: Option<Block>, start: nat,
      first: nat, next: nat, last: int, cut: int, interval: int, maxTx: nat)
    requires Spanned(txs, blocks, spans, last, interval, maxTx) && SpanEnd(spans) == start
    requires cut == LastCut(blocks, last)
    requires made.Some? ==> CutRule(txs, made.value, start, first, next, cut, interval, maxTx)
    ensures made.Some? ==> Spanned(txs, Append(blocks, made), spans + [(first, next)], last, interval, maxTx)
    ensures made.None? ==> Spanned(txs, Append(blocks, made), spans, last, interval, maxTx)
    ensures SpanEnd(spans + [(first, next)]) == next
  {
    hide CutRule;
    if made.Some? {
      var blocks', spans' := Append(blocks, made), spans + [(first, next)];
      forall i | 0 <= i < |blocks'|
        ensures SpanAt(txs, blocks', spans', last, interval, maxTx, i)
      {
        assert i < |blocks| ==> SpanAt(txs, blocks, spans, last, interval, maxTx, i);
      }
    }
  }

  lemma ProducedCut(blocks: seq<Block>, height: nat, parent: Hash, last: int, interval: int, maxTx: nat,
      nextHeight: nat, hash: Hash, cut: int)
    requires Produced(blocks, height, parent, last, interval, maxTx, nextHeight, hash, cut)
    ensures cut == LastCut(blocks, last)
  {
  }

  lemma SteadyEmpty(blocks: seq<Block>, next: nat, txs: seq<Tx>, asked0: seq<Tx>, asked: seq<Tx>, queue0: seq<Entry>,
      queue: seq<Entry>, log0: seq<Entry>, log: seq<Entry>)
    requires Steady(blocks, next, txs, asked0, asked, queue0, queue, log0, log) && queue0 == []
    ensures queue == []
  {
  }

  lemma AtLeastOne(producer: BlockProducer)
    requires producer.Valid()
    ensures producer.maxTx >= 1
  {
  }

  lemma Begin(txs: seq<Tx>, asked: seq<Tx>, queue: seq<Entry>, log: seq<Entry>, height: nat, parent: Hash, last: int,
      interval: int, maxTx: nat)
    ensures Steady([], 0, txs, asked, asked, queue, queue, log, log)
    ensures Produced([], height, parent, last, interval, maxTx, height, parent, last) && EmptyLast([], false)
    ensures EmptyLast([], true) && Spanned(txs, [], [], last, interval, maxTx) && SpanEnd([]) == 0
  {
    assert asked + txs[..0] == asked && TxsOf(log[|log|..]) == [];
  }

  /** While work is left no block is empty, so a new one keeps the empty one last. */
  lemma NotYetEmpty(blocks: seq<Block>, made: Option<Block>, over: bool)
    requires EmptyLast(blocks, false) && (made.Some? && made.value.txs == [] ==> over)
    ensures EmptyLast(Append(blocks, made), over)
  {
  }

  lemma Finish(blocks: seq<Block>, txs: seq<Tx>, next: nat, asked0: seq<Tx>, asked: seq<Tx>, queue0: seq<Entry>,
      queue: seq<Entry>, log0: seq<Entry>, log: seq<Entry>, height: nat, parent: Hash, last: int, interval: int,
      maxTx: nat, nextHeight: nat, hash: Hash, cut: int, emptyEnabled: bool)
    requires Steady(blocks, next, txs, asked0, asked, queue0, queue, log0, log) && next == |txs| && queue == []
    requires Produced(blocks, height, parent, last, interval, maxTx, nextHeight, hash, cut)
    requires EmptyLast(blocks, emptyEnabled)
    ensures asked == asked0 + txs && Extends(log0, log) && |log0| <= |log|
    ensures Flat(blocks) == TxsOf(queue0) + TxsOf(log[|log0|..])
    ensures Chained(blocks, height, parent, last, interval, maxTx) && EmptyLast(blocks, emptyEnabled)
    ensures queue0 == [] ==> forall i :: 0 <= i < |blocks| ==> blocks[i].poolAfter == 0
  {
    assert txs[..|txs|] == txs;
    assert TxsOf(queue) == [] && Flat(blocks) + [] == Flat(blocks);
  }
}
