/** On one shard, the row-level reference is what the serial executor computes. */
module SerialExecution {
  import opened Basics
  import opened Transactions
  import opened SerialRows
  import Waves = BsxWaves

  /** Key sets are listed in the order of key strings. */
  ghost predicate Sorts(c: Job, sort: set<Key> -> seq<Key>) {
    forall keys: set<Key> ::
      forall p, q :: 0 <= p < q < |sort(keys)| ==> RankOf(c, sort(keys)[p]) < RankOf(c, sort(keys)[q])
  }

  /** All keys with a home are homed at `s`, whose rows are `base`. */
  ghost predicate OneShard(c: Job, s: Shard, base: Rows) {
    (forall k :: k in c.home ==> c.home[k] == s) && c.bases == map[s := base]
  }

  /** Once the last name of a row is stored, the rest leaves it. */
  lemma {:induction false} LastStays(c: Job, s: Shard, base: Rows, writes: Rows, keys: seq<Key>, x: nat, i: nat, r: Key)
    requires x < i <= |keys| && (forall k :: k in keys ==> k in writes) && Qualify(s, keys[x]) == r && keys[x] in writes
    requires forall y :: x < y < |keys| ==> Qualify(s, keys[y]) != r
    ensures Look(Waves.Stored(s, base, writes, keys, i), r) == writes[keys[x]]
  {
    hide Qualify;
    assert keys[i - 1] in keys;
    if x < i - 1 {
      LastStays(c, s, base, writes, keys, x, i - 1, r);
    }
  }

  lemma NoLaterName(c: Job, s: Shard, writes: Rows, sort: set<Key> -> seq<Key>, p: Place, k: Key, x: nat)
    requires Listing(sort) && Sorts(c, sort) && p.0 == s && ComesLast(c, writes, p, k)
    requires (forall a :: a in writes ==> a in c.home && c.home[a] == s) && x < |sort(writes.Keys)|
    requires sort(writes.Keys)[x] == k
    ensures forall y :: x < y < |sort(writes.Keys)| ==> Qualify(s, sort(writes.Keys)[y]) != p.1
  {
    hide Qualify; hide RankOf;
    var keys := sort(writes.Keys);
    forall y | x < y < |keys|
      ensures Qualify(s, keys[y]) != p.1
    {
      var a := keys[y];
      assert a in keys && RankOf(c, k) < RankOf(c, a);
      assert Qualify(s, a) == p.1 ==> Lives(c, a, p);
    }
  }

  /** Storing a write set key by key in sorted order is storing it by place. */
  lemma SortedStore(c: Job, s: Shard, base: Rows, writes: Rows, sort: set<Key> -> seq<Key>, r: Key)
    requires Listing(sort) && Sorts(c, sort) && Sound(c) && (forall k :: k in c.home ==> c.home[k] == s)
    requires forall k :: k in writes ==> k in c.home
    ensures Look(Waves.Apply(s, base, writes, sort), r) == Stored(c, writes, (s, r), Look(base, r))
  {
    hide Qualify; hide Stored; hide RankOf; hide Look;
    var keys, p := sort(writes.Keys), (s, r);
    assert forall k :: k in keys <==> k in writes;
    if a :| a in writes && Qualify(s, a) == r {
      assert Lives(c, a, p);
      var k := SomeLast(c, writes, p, a);
      StoredLast(c, writes, p, k, Look(base, r));
      assert k in keys;
      var x :| 0 <= x < |keys| && keys[x] == k;
      NoLaterName(c, s, writes, sort, p, k, x);
      hide Sorts; hide Sound;
      LastStays(c, s, base, writes, keys, x, |keys|, r);
    } else {
      hide Sorts; hide Sound;
      forall k | k in writes
        ensures !Lives(c, k, p) && Qualify(s, k) != r
      {
      }
      StoredNone(c, writes, p, Look(base, r));
      Waves.StoredElsewhere(s, base, writes, keys, |keys|, r);
    }
  }

  /** The rows the reference has after `n` transactions are these. */
  ghost predicate Matches(c: Job, s: Shard, n: nat, rows: Rows)
    requires n <= |c.block|
  {
    forall r :: Look(rows, r) == ValueAt(c, Unchecked, n, (s, r))
  }

  ghost function Executed(c: Job, s: Shard, base: Rows, sort: set<Key> -> seq<Key>, n: nat): Rows
    requires Listing(sort) && n <= |c.block|
  {
    Waves.Replay(c.block, Upto(|c.block|), s, base, sort, n)
  }

  /** What the transaction touched has a home. */
  ghost predicate Homed(c: Job, o: Outcome) {
    (forall k :: k in o.observed ==> k in c.home) && forall k :: k in o.writes ==> k in c.home
  }

  ghost predicate AllHomed(c: Job, n: nat)
    requires n <= |c.block|
  {
    forall i :: 0 <= i < n ==> Homed(c, OutcomeAt(c, Unchecked, i))
  }

  /** The state `SerialExecutor` leaves on one shard is that of the reference: it checks no
      declaration and stores every write of every transaction, failed ones included. */
  lemma {:induction false} OneShardIsExecutor(c: Job, s: Shard, base: Rows, sort: set<Key> -> seq<Key>, n: nat)
    requires Listing(sort) && Sorts(c, sort) && Sound(c) && OneShard(c, s, base) && n <= |c.block|
    requires AllHomed(c, n)
    ensures Matches(c, s, n, Executed(c, s, base, sort, n))
  {
    hide *;
    if n == 0 {
      StartMatches(c, s, base, sort, n);
    } else {
      HomedBefore(c, n);
      OneShardIsExecutor(c, s, base, sort, n - 1);
      OneMore(c, s, base, sort, n - 1);
    }
  }

  lemma HomedBefore(c: Job, n: nat)
    requires 0 < n <= |c.block| && AllHomed(c, n)
    ensures AllHomed(c, n - 1) && Homed(c, OutcomeAt(c, Unchecked, n - 1))
  {
    hide OutcomeAt; hide Homed;
  }

  /** As long as everybody keeps to its declared accesses, everything touched has a home. */
  lemma WithinIsHomed(c: Job, n: nat)
    requires Sound(c) && n <= |c.block| && AllWithin(c, Unchecked, n)
    ensures AllHomed(c, n)
  {
    hide DeclaredReads; hide DeclaredWrites; hide Canonical; hide RankOf; hide OutcomeAt;
    forall i | 0 <= i < n
      ensures Homed(c, OutcomeAt(c, Unchecked, i))
    {
      var o := OutcomeAt(c, Unchecked, i);
      assert WithinDeclaration(c.block[i], o);
      forall k | k in o.observed || k in o.writes
        ensures k in c.home
      {
        assert k in o.writes ==> k in o.writes.Keys;
        assert Declares(c, i, k);
      }
    }
  }

  lemma StartMatches(c: Job, s: Shard, base: Rows, sort: set<Key> -> seq<Key>, n: nat)
    requires Listing(sort) && OneShard(c, s, base) && n == 0
    ensures Matches(c, s, n, Executed(c, s, base, sort, n))
  {
  }

  /** And so is every outcome. */
  lemma ExecutorOutcome(c: Job, s: Shard, base: Rows, sort: set<Key> -> seq<Key>, i: nat)
    requires Listing(sort) && Sorts(c, sort) && Sound(c) && OneShard(c, s, base) && i < |c.block|
    requires AllHomed(c, i + 1)
    ensures Execute(c.block[i], Executed(c, s, base, sort, i), Some(s)) == OutcomeAt(c, Unchecked, i)
  {
    hide *;
    HomedBefore(c, i + 1);
    OneShardIsExecutor(c, s, base, sort, i);
    SameOn1(c, s, base, Executed(c, s, base, sort, i), i);
  }

  lemma OneMore(c: Job, s: Shard, base: Rows, sort: set<Key> -> seq<Key>, i: nat)
    requires Listing(sort) && Sorts(c, sort) && Sound(c) && OneShard(c, s, base) && i < |c.block|
    requires Homed(c, OutcomeAt(c, Unchecked, i))
    requires Matches(c, s, i, Executed(c, s, base, sort, i))
    ensures Matches(c, s, i + 1, Executed(c, s, base, sort, i + 1))
  {
    hide Listing; hide Sorts; hide Sound; hide Execute; hide ValueAt; hide OneShard;
    hide Look; hide OutcomeAt; hide Executed; hide Waves.Apply; hide Stored;
    var before, o := Executed(c, s, base, sort, i), OutcomeAt(c, Unchecked, i);
    SameOn1(c, s, base, before, i);
    HomedThere(c, s, base);
    ExecutedNext(c, s, base, sort, i);
    forall r
      ensures Look(Executed(c, s, base, sort, i + 1), r) == ValueAt(c, Unchecked, i + 1, (s, r))
    {
      SortedStore(c, s, before, o.writes, sort, r);
      ValueStep(c, Unchecked, i, (s, r));
    }
  }

  lemma ExecutedNext(c: Job, s: Shard, base: Rows, sort: set<Key> -> seq<Key>, i: nat)
    requires Listing(sort) && i < |c.block|
    ensures var before := Executed(c, s, base, sort, i);
            Executed(c, s, base, sort, i + 1) == Waves.Apply(s, before, Execute(c.block[i], before, Some(s)).writes,
              sort)
  {
    hide Execute; hide Waves.Apply; hide Listing;
  }

  lemma HomedThere(c: Job, s: Shard, base: Rows)
    requires OneShard(c, s, base)
    ensures forall k :: k in c.home ==> c.home[k] == s
  {
  }

  lemma SameOn1(c: Job, s: Shard, base: Rows, before: Rows, i: nat)
    requires Sound(c) && OneShard(c, s, base) && i < |c.block|
    requires Homed(c, OutcomeAt(c, Unchecked, i)) && Matches(c, s, i, before)
    ensures Execute(c.block[i], before, Some(s)) == OutcomeAt(c, Unchecked, i)
  {
    hide ValueAt; hide ViewAt; hide Look; hide Canonical; hide RankOf; hide Run;
    var view, o := ViewAt(c, Unchecked, i), OutcomeAt(c, Unchecked, i);
    forall k | k in o.observed
      ensures Look(before, Row(Some(s), k)) == Look(view, Row(None, k))
    {
      ViewShows(c, Unchecked, i, k);
    }
    RunAgrees(c.block[i].program, view, None, before, Some(s), [], map[], o.observed);
  }
}
