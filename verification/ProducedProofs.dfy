/** State proofs after a whole run: blocks come from the block producer, every update is committed
    at the height of its block, and witnesses are made afterwards. */
module ProducedProofs {

  import B = BlockProduction
  import P = StateProofs

  /** One state update of one transaction. */
  datatype Update = Update(shard: int, key: string, value: int)

  function CommitAt(u: Update, height: int): P.Commit {
    P.Commit(u.shard, u.key, u.value, height)
  }

  /** The commits of the first `n` blocks; `updates[i]` are those of block `i`, transaction by
      transaction. */
  function Committed(blocks: seq<B.Block>, updates: seq<seq<Update>>, n: nat): seq<P.Commit>
    requires n <= |blocks| == |updates|
  {
    if n == 0 then [] else Committed(blocks, updates, n - 1) + Stamped(updates[n - 1], blocks[n - 1].height)
  }

  function Stamped(list: seq<Update>, height: int): (r: seq<P.Commit>)
    ensures |r| == |list| && forall i :: 0 <= i < |r| ==> r[i] == CommitAt(list[i], height)
  {
    seq(|list|, i requires 0 <= i < |list| => CommitAt(list[i], height))
  }

  ghost predicate UpTo(commits: seq<P.Commit>, height: int) {
    forall i :: 0 <= i < |commits| ==> commits[i].height <= height
  }

  ghost predicate WasCommitted(commits: seq<P.Commit>, shard: int, key: string) {
    exists i :: P.Touches(commits, shard, key, i)
  }

  /** Gapless heights make commit heights rise. */
  lemma {:induction false} ChainRises(blocks: seq<B.Block>, updates: seq<seq<Update>>, n: nat, height: nat,
      parent: B.Hash, last: int, interval: int, maxTx: nat)
    requires n <= |blocks| == |updates| && B.Chained(blocks, height, parent, last, interval, maxTx)
    ensures P.Rising(Committed(blocks, updates, n)) && UpTo(Committed(blocks, updates, n), height + n - 1)
  {
    if n > 0 {
      ChainRises(blocks, updates, n - 1, height, parent, last, interval, maxTx);
      assert B.Follows(blocks[..n - 1], blocks[n - 1], height, parent, last, interval, maxTx);
    }
  }

  /** So every key that a produced chain committed can be proved. */
  lemma ProducedProvable(blocks: seq<B.Block>, updates: seq<seq<Update>>, height: nat, parent: B.Hash, last: int,
      interval: int, maxTx: nat, shard: int, key: string)
    requires |blocks| == |updates| && B.Chained(blocks, height, parent, last, interval, maxTx)
    ensures var commits := Committed(blocks, updates, |blocks|);
            P.Provable(commits, shard, key) <==> WasCommitted(commits, shard, key)
  {
    hide B.Chained; hide P.Latest;
    var commits := Committed(blocks, updates, |blocks|);
    ChainRises(blocks, updates, |blocks|, height, parent, last, interval, maxTx);
    if WasCommitted(commits, shard, key) {
      P.RisingProvable(commits, shard, key);
    }
  }

  /** Records the commits of a produced chain and makes one witness: it verifies exactly if it
      requires a key and all the keys it requires were committed. */
  method ProveAfterRun(h: P.Hasher, sort: P.Sorter, blocks: seq<B.Block>, updates: seq<seq<Update>>,
      required: seq<(int, string)>, ghost height: nat, ghost parent: B.Hash, ghost last: int, ghost interval: int,
      ghost maxTx: nat)
    returns (ok: bool)
    requires P.Hashing(h) && P.Sorting(sort) && |blocks| == |updates|
    requires B.Chained(blocks, height, parent, last, interval, maxTx)
    ensures var commits := Committed(blocks, updates, |blocks|);
            ok <==> required != [] && forall p ::
              0 <= p < |required| ==> WasCommitted(commits, required[p].0, required[p].1)
  {
    hide P.Hashing; hide P.Sorting; hide B.Chained; hide P.Provable; hide WasCommitted;
    var preview := new P.Preview(h, sort);
    for n := 0 to |blocks|
      invariant preview.Valid(h, sort) && fresh(preview) && preview.log == Committed(blocks, updates, n)
    {
      hide P.Preview.Valid;
      var stamped := Stamped(updates[n], blocks[n].height);
      for i := 0 to |stamped|
        invariant preview.Valid(h, sort) && fresh(preview)
        invariant preview.log == Committed(blocks, updates, n) + stamped[..i]
      {
        preview.Record(h, sort, stamped[i]);
        assert stamped[..i + 1] == stamped[..i] + [stamped[i]];
      }
      assert stamped[..|stamped|] == stamped;
    }
    var verified, failed;
    verified, failed, ok := preview.Witness(h, sort, required);
    forall p | 0 <= p < |required|
      ensures P.Provable(preview.log, required[p].0, required[p].1)
        <==> WasCommitted(preview.log, required[p].0, required[p].1)
    {
      ProducedProvable(blocks, updates, height, parent, last, interval, maxTx, required[p].0, required[p].1);
    }
  }
}
