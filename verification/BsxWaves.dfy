/** Wave execution, as BSX and ACG do it: every wave runs in parallel on one snapshot and is then
    applied in order. The reference is serial replay of the concatenated waves. */
module BsxWaves {

  import opened Basics
  import opened Transactions
  import opened BsxColouring
  import opened Digraphs
  import opened Witnesses

  /** A receipt with the content of the state commitment whose root it carries. */
  datatype Receipt = Receipt(index: nat, outcome: Outcome, after: Rows)

  // ---- Applying one write set ----

  /** The first `i` listed keys written, each under its row. */
  function Stored(s: Shard, base: Rows, writes: Rows, keys: seq<Key>, i: nat): Rows
    requires i <= |keys| && forall k :: k in keys ==> k in writes
  {
    if i == 0 then base else
      assert keys[i - 1] in keys;
      Stored(s, base, writes, keys, i - 1)[Qualify(s, keys[i - 1]) := writes[keys[i - 1]]]
  }

  function Apply(s: Shard, base: Rows, writes: Rows, sort: set<Key> -> seq<Key>): Rows
    requires Listing(sort)
  {
    Stored(s, base, writes, sort(writes.Keys), |sort(writes.Keys)|)
  }

  lemma {:induction false} StoredElsewhere(s: Shard, base: Rows, writes: Rows, keys: seq<Key>, i: nat, row: Key)
    requires i <= |keys| && (forall k :: k in keys ==> k in writes) && forall k :: k in writes ==> Qualify(s, k) != row
    ensures Look(Stored(s, base, writes, keys, i), row) == Look(base, row)
  {
    hide Qualify;
    if i > 0 {
      StoredElsewhere(s, base, writes, keys, i - 1, row);
      assert keys[i - 1] in keys;
    }
  }

  ghost predicate InBlock(block: seq<Tx>, order: seq<nat>) {
    forall p :: 0 <= p < |order| ==> order[p] < |block|
  }

  // ---- Serial replay ----

  /** State after the first `n` transactions of `order`. */
  function Replay(block: seq<Tx>, order: seq<nat>, s: Shard, base: Rows, sort: set<Key> -> seq<Key>, n: nat): Rows
    requires Listing(sort) && n <= |order| && InBlock(block, order)
  {
    if n == 0 then base else
      var before := Replay(block, order, s, base, sort, n - 1);
      Apply(s, before, Execute(block[order[n - 1]], before, Some(s)).writes, sort)
  }

  function ReplayReceipt(block: seq<Tx>, order: seq<nat>, s: Shard, base: Rows, sort: set<Key> -> seq<Key>, n: nat):
      Receipt
    requires Listing(sort) && n < |order| && InBlock(block, order)
  {
    var before := Replay(block, order, s, base, sort, n);
    Receipt(order[n], Execute(block[order[n]], before, Some(s)), Replay(block, order, s, base, sort, n + 1))
  }

  // ---- Wave execution ----

  /** The state after applying the first `p` results of a wave that all ran on `snapshot`. */
  function InWave(block: seq<Tx>, wave: seq<nat>, s: Shard, snapshot: Rows, sort: set<Key> -> seq<Key>, p: nat): Rows
    requires Listing(sort) && p <= |wave| && InBlock(block, wave)
  {
    if p == 0 then snapshot else
      Apply(s, InWave(block, wave, s, snapshot, sort, p - 1), Execute(block[wave[p - 1]], snapshot, Some(s)).writes,
        sort)
  }

  function WaveReceipt(block: seq<Tx>, wave: seq<nat>, s: Shard, snapshot: Rows, sort: set<Key> -> seq<Key>, p: nat):
      Receipt
    requires Listing(sort) && p < |wave| && InBlock(block, wave)
  {
    Receipt(wave[p], Execute(block[wave[p]], snapshot, Some(s)), InWave(block, wave, s, snapshot, sort, p + 1))
  }

  ghost predicate Waved(block: seq<Tx>, waves: seq<seq<nat>>) {
    forall c :: 0 <= c < |waves| ==> InBlock(block, waves[c])
  }

  /** State after the first `c` waves. */
  ghost function AfterWaves(block: seq<Tx>, waves: seq<seq<nat>>, s: Shard, base: Rows, sort: set<Key> -> seq<Key>,
      c: nat): Rows
    requires Listing(sort) && c <= |waves| && Waved(block, waves)
  {
    if c == 0 then base else
      assert InBlock(block, waves[c - 1]);
      InWave(block, waves[c - 1], s, AfterWaves(block, waves, s, base, sort, c - 1), sort, |waves[c - 1]|)
  }

  /** The transactions of the first `c` waves, in order. */
  ghost function Flat(waves: seq<seq<nat>>, c: nat): seq<nat>
    requires c <= |waves|
  {
    if c == 0 then [] else Flat(waves, c - 1) + waves[c - 1]
  }

  // ---- Waves equal replay ----

  /** What an earlier member of the wave declares to write is no row that a later one declares
      to read. */
  ghost predicate WaveApart(block: seq<Tx>, wave: seq<nat>, s: Shard)
    requires InBlock(block, wave)
  {
    forall p, q, a, b ::
      && 0 <= p < q < |wave|
      && a in DeclaredWrites(block[wave[p]]) && b in DeclaredReads(block[wave[q]])
      ==> Qualify(s, a) != Qualify(s, b)
  }

  ghost predicate RowsApart(block: seq<Tx>, waves: seq<seq<nat>>, s: Shard) {
    forall c :: 0 <= c < |waves| ==> InBlock(block, waves[c]) && WaveApart(block, waves[c], s)
  }

  /** The first `n` transactions of the replay keep to their declared accesses. */
  ghost predicate KeepsDeclared(block: seq<Tx>, order: seq<nat>, s: Shard, base: Rows, sort: set<Key> -> seq<Key>,
      n: nat)
    requires Listing(sort) && InBlock(block, order)
  {
    n <= |order| && forall p ::
      0 <= p < n ==> WithinDeclaration(block[order[p]], ReplayReceipt(block, order, s, base, sort, p).outcome)
  }

  lemma KeepsFewer(block: seq<Tx>, order: seq<nat>, s: Shard, base: Rows, sort: set<Key> -> seq<Key>, n: nat, m: nat)
    requires Listing(sort) && InBlock(block, order) && KeepsDeclared(block, order, s, base, sort, n) && m <= n
    ensures KeepsDeclared(block, order, s, base, sort, m)
  {
  }

  lemma KeepsAt(block: seq<Tx>, order: seq<nat>, s: Shard, base: Rows, sort: set<Key> -> seq<Key>, n: nat, p: nat)
    requires Listing(sort) && InBlock(block, order) && KeepsDeclared(block, order, s, base, sort, n) && p < n
    ensures p < |order|
    ensures WithinDeclaration(block[order[p]],
        Execute(block[order[p]], Replay(block, order, s, base, sort, p), Some(s)))
  {
    assert WithinDeclaration(block[order[p]], ReplayReceipt(block, order, s, base, sort, p).outcome);
  }

  /** What an earlier member of a wave writes is no row that a later member reads. */
  lemma QuietRow(block: seq<Tx>, wave: seq<nat>, s: Shard, p: nat, q: nat, o: Outcome, k: Key, w: Key)
    requires InBlock(block, wave) && WaveApart(block, wave, s) && p < q < |wave|
    requires WithinDeclaration(block[wave[p]], o) && k in DeclaredReads(block[wave[q]]) && w in o.writes
    ensures Qualify(s, w) != Qualify(s, k)
  {
    hide Qualify; hide DeclaredReads; hide DeclaredWrites;
    assert w in o.writes.Keys;
  }

  /** `wave` stands in `order` at place `lo`. */
  ghost predicate StandsAt(order: seq<nat>, wave: seq<nat>, lo: nat) {
    lo + |wave| <= |order| && forall p :: 0 <= p < |wave| ==> order[lo + p] == wave[p]
  }

  /** Serially replaying the first members of a wave leaves what a later member reads. */
  lemma {:induction false} SnapshotHolds(block: seq<Tx>, order: seq<nat>, wave: seq<nat>, s: Shard, base: Rows,
      sort: set<Key> -> seq<Key>, lo: nat, p: nat, b: nat, k: Key)
    requires Listing(sort) && InBlock(block, order) && StandsAt(order, wave, lo) && InBlock(block, wave)
    requires WaveApart(block, wave, s) && KeepsDeclared(block, order, s, base, sort, lo + p)
    requires p <= b < |wave| && k in DeclaredReads(block[wave[b]])
    ensures Look(Replay(block, order, s, base, sort, lo + p),
        Qualify(s, k)) == Look(Replay(block, order, s, base, sort, lo), Qualify(s, k))
    decreases p
  {
    hide *;
    if p > 0 {
      KeepsFewer(block, order, s, base, sort, lo + p, lo + p - 1);
      SnapshotHolds(block, order, wave, s, base, sort, lo, p - 1, b, k);
      QuietStep(block, order, wave, s, base, sort, lo, p - 1, b, k);
    }
  }

  lemma QuietStep(block: seq<Tx>, order: seq<nat>, wave: seq<nat>, s: Shard, base: Rows, sort: set<Key> -> seq<Key>,
      lo: nat, q: nat, b: nat, k: Key)
    requires Listing(sort) && InBlock(block, order) && StandsAt(order, wave, lo) && InBlock(block, wave)
    requires WaveApart(block, wave, s) && KeepsDeclared(block, order, s, base, sort, lo + q + 1)
    requires q < b < |wave| && k in DeclaredReads(block[wave[b]])
    ensures Look(Replay(block, order, s, base, sort, lo + q + 1),
        Qualify(s, k)) == Look(Replay(block, order, s, base, sort, lo + q), Qualify(s, k))
  {
    hide Qualify; hide Look; hide Execute; hide DeclaredReads; hide Conflicts; hide WithinDeclaration; hide WaveApart;
    hide Listing; hide Apply;
    var before := Replay(block, order, s, base, sort, lo + q);
    var o := ReplayReceipt(block, order, s, base, sort, lo + q).outcome;
    assert order[lo + q] == wave[q] && WithinDeclaration(block[order[lo + q]], o);
    forall w | w in o.writes
      ensures Qualify(s, w) != Qualify(s, k)
    {
      QuietRow(block, wave, s, q, b, o, k, w);
    }
    ApplyElsewhere(s, before, o.writes, sort, Qualify(s, k));
  }

  lemma ApplyElsewhere(s: Shard, base: Rows, writes: Rows, sort: set<Key> -> seq<Key>, row: Key)
    requires Listing(sort) && forall k :: k in writes ==> Qualify(s, k) != row
    ensures Look(Apply(s, base, writes, sort), row) == Look(base, row)
  {
    var keys := sort(writes.Keys);
    StoredElsewhere(s, base, writes, keys, |keys|, row);
  }

  /** Running a member on the wave's snapshot gives its serial outcome. */
  lemma SameOutcome(block: seq<Tx>, order: seq<nat>, wave: seq<nat>, s: Shard, base: Rows, sort: set<Key> -> seq<Key>,
      lo: nat, p: nat)
    requires Listing(sort) && InBlock(block, order) && StandsAt(order, wave, lo) && InBlock(block, wave)
    requires WaveApart(block, wave, s) && KeepsDeclared(block, order, s, base, sort, lo + p)
    requires p < |wave|
    ensures var first, after := Execute(block[wave[p]], Replay(block, order, s, base, sort, lo), Some(s)),
        Execute(block[wave[p]], Replay(block, order, s, base, sort, lo + p), Some(s));
      && (WithinDeclaration(block[wave[p]], first) <==> WithinDeclaration(block[wave[p]], after))
      && (WithinDeclaration(block[wave[p]], first) ==> first == after)
  {
    var before, after := Replay(block, order, s, base, sort, lo), Replay(block, order, s, base, sort, lo + p);
    forall k | k in DeclaredReads(block[wave[p]])
      ensures Look(before, Row(Some(s), k)) == Look(after, Row(Some(s), k))
    {
      SnapshotHolds(block, order, wave, s, base, sort, lo, p, p, k);
    }
    ExecuteAgrees(block[wave[p]], before, Some(s), after, Some(s));
  }

  /** One wave, run in parallel and applied in order, is the serial replay of its members. */
  lemma {:induction false} WaveIsReplay(block: seq<Tx>, order: seq<nat>, wave: seq<nat>, s: Shard, base: Rows,
      sort: set<Key> -> seq<Key>, lo: nat, p: nat)
    requires Listing(sort) && InBlock(block, order) && StandsAt(order, wave, lo) && InBlock(block, wave)
    requires WaveApart(block, wave, s) && KeepsDeclared(block, order, s, base, sort, lo + p)
    requires p <= |wave|
    ensures InWave(block, wave, s, Replay(block, order, s, base, sort, lo), sort, p) == Replay(block, order, s, base,
        sort, lo + p)
    decreases p
  {
    hide Execute; hide KeepsDeclared; hide WaveApart; hide Apply;
    if p > 0 {
      KeepsFewer(block, order, s, base, sort, lo + p, lo + p - 1);
      WaveIsReplay(block, order, wave, s, base, sort, lo, p - 1);
      SameOutcome(block, order, wave, s, base, sort, lo, p - 1);
      KeepsAt(block, order, s, base, sort, lo + p, lo + p - 1);
      assert order[lo + p - 1] == wave[p - 1];
    }
  }

  lemma {:induction false} FlatStands(waves: seq<seq<nat>>, c: nat, n: nat)
    requires c < n <= |waves|
    ensures StandsAt(Flat(waves, n), waves[c], |Flat(waves, c)|)
  {
    if c < n - 1 {
      FlatStands(waves, c, n - 1);
    }
  }

  lemma {:induction false} FlatInBlock(block: seq<Tx>, waves: seq<seq<nat>>, n: nat)
    requires n <= |waves| && Waved(block, waves)
    ensures InBlock(block, Flat(waves, n))
  {
    if n > 0 {
      FlatInBlock(block, waves, n - 1);
      assert InBlock(block, waves[n - 1]);
    }
  }

  /** All waves together leave the state of the serial replay. */
  lemma {:induction false} WavesAreReplay(block: seq<Tx>, waves: seq<seq<nat>>, s: Shard, base: Rows,
      sort: set<Key> -> seq<Key>, c: nat)
    requires Listing(sort) && Waved(block, waves) && RowsApart(block, waves, s) && c <= |waves|
    requires InBlock(block, Flat(waves, |waves|))
    requires KeepsDeclared(block, Flat(waves, |waves|), s, base, sort, |Flat(waves, c)|)
    ensures |Flat(waves, c)| <= |Flat(waves, |waves|)|
    ensures AfterWaves(block, waves, s, base, sort, c) == Replay(block, Flat(waves, |waves|), s, base, sort,
        |Flat(waves, c)|)
  {
    hide KeepsDeclared; hide RowsApart; hide Listing;
    if c > 0 {
      FlatStands(waves, c - 1, |waves|);
      KeepsFewer(block, Flat(waves, |waves|), s, base, sort, |Flat(waves, c)|, |Flat(waves, c - 1)|);
      WavesAreReplay(block, waves, s, base, sort, c - 1);
      assert InBlock(block, waves[c - 1]);
      ApartIn(block, waves, s, c - 1);
      WaveIsReplay(block, Flat(waves, |waves|), waves[c - 1], s, base, sort, |Flat(waves, c - 1)|, |waves[c - 1]|);
    }
  }

  lemma ReceiptAt(block: seq<Tx>, order: seq<nat>, wave: seq<nat>, s: Shard, base: Rows, sort: set<Key> -> seq<Key>,
      lo: nat, p: nat)
    requires Listing(sort) && InBlock(block, order) && StandsAt(order, wave, lo) && InBlock(block, wave)
    requires WaveApart(block, wave, s) && KeepsDeclared(block, order, s, base, sort, lo + p + 1)
    requires p < |wave|
    ensures WaveReceipt(block, wave, s, Replay(block, order, s, base, sort, lo), sort, p) == ReplayReceipt(block,
        order, s, base, sort, lo + p)
  {
    hide KeepsDeclared; hide WaveApart; hide Listing; hide Execute; hide InWave; hide Replay; hide Conflicts;
    KeepsFewer(block, order, s, base, sort, lo + p + 1, lo + p);
    KeepsAt(block, order, s, base, sort, lo + p + 1, lo + p);
    SameOutcome(block, order, wave, s, base, sort, lo, p);
    WaveIsReplay(block, order, wave, s, base, sort, lo, p + 1);
    assert order[lo + p] == wave[p];
  }

  /** The receipt of member `p` of wave `c` is that of its place in the replay. */
  ghost predicate SameReceipt(block: seq<Tx>, waves: seq<seq<nat>>, s: Shard, base: Rows, sort: set<Key> -> seq<Key>,
      c: nat, p: nat)
    requires Listing(sort) && Waved(block, waves) && InBlock(block, Flat(waves, |waves|))
  {
    && c < |waves| && p < |waves[c]| && InBlock(block, waves[c]) && |Flat(waves, c)| + p < |Flat(waves, |waves|)|
    && WaveReceipt(block, waves[c], s, AfterWaves(block, waves, s, base, sort, c), sort, p)
       == ReplayReceipt(block, Flat(waves, |waves|), s, base, sort, |Flat(waves, c)| + p)
  }

  /** Every receipt, with the state root it carries, is the one of the serial replay. */
  lemma ReceiptsAreReplay(block: seq<Tx>, waves: seq<seq<nat>>, s: Shard, base: Rows, sort: set<Key> -> seq<Key>,
      c: nat, p: nat)
    requires Listing(sort) && Waved(block, waves) && RowsApart(block, waves, s) && c < |waves| && p < |waves[c]|
    requires InBlock(block, Flat(waves, |waves|))
    requires KeepsDeclared(block, Flat(waves, |waves|), s, base, sort, |Flat(waves, c)| + p + 1)
    ensures SameReceipt(block, waves, s, base, sort, c, p)
  {
    hide Listing; hide Waved; hide RowsApart; hide KeepsDeclared; hide Flat; hide Replay;
    hide AfterWaves; hide WaveReceipt; hide ReplayReceipt; hide InBlock; hide StandsAt;
    WaveOf(block, waves, c);
    FlatStands(waves, c, |waves|);
    StandsBelow(Flat(waves, |waves|), waves[c], |Flat(waves, c)|);
    KeepsFewer(block, Flat(waves, |waves|), s, base, sort, |Flat(waves, c)| + p + 1, |Flat(waves, c)|);
    WavesAreReplay(block, waves, s, base, sort, c);
    ApartIn(block, waves, s, c);
    ReceiptAt(block, Flat(waves, |waves|), waves[c], s, base, sort, |Flat(waves, c)|, p);
  }

  lemma WaveOf(block: seq<Tx>, waves: seq<seq<nat>>, c: nat)
    requires Waved(block, waves) && c < |waves|
    ensures InBlock(block, waves[c])
  {
  }

  lemma ApartIn(block: seq<Tx>, waves: seq<seq<nat>>, s: Shard, c: nat)
    requires RowsApart(block, waves, s) && c < |waves|
    ensures InBlock(block, waves[c]) && WaveApart(block, waves[c], s)
  {
  }

  lemma StandsBelow(order: seq<nat>, wave: seq<nat>, lo: nat)
    requires StandsAt(order, wave, lo)
    ensures lo + |wave| <= |order|
  {
  }

  /** A member of a wave keeps to its declared accesses when run on the wave's snapshot. */
  ghost predicate KeepsInWave(block: seq<Tx>, waves: seq<seq<nat>>, s: Shard, base: Rows, sort: set<Key> -> seq<Key>,
      c: nat, p: nat)
    requires Listing(sort) && Waved(block, waves)
  {
    c < |waves| && p < |waves[c]| && waves[c][p] < |block|
    && WithinDeclaration(block[waves[c][p]],
      Execute(block[waves[c][p]], AfterWaves(block, waves, s, base, sort, c), Some(s)))
  }

  ghost predicate WavesKeep(block: seq<Tx>, waves: seq<seq<nat>>, s: Shard, base: Rows, sort: set<Key> -> seq<Key>)
    requires Listing(sort) && Waved(block, waves)
  {
    forall c, p :: 0 <= c < |waves| && 0 <= p < |waves[c]| ==> KeepsInWave(block, waves, s, base, sort, c, p)
  }

  lemma {:induction false} Locate(waves: seq<seq<nat>>, n: nat, m: nat) returns (c: nat, p: nat)
    requires m <= |waves| && n < |Flat(waves, m)|
    ensures c < m && p < |waves[c]| && n == |Flat(waves, c)| + p
  {
    if n < |Flat(waves, m - 1)| {
      c, p := Locate(waves, n, m - 1);
    } else {
      c, p := m - 1, n - |Flat(waves, m - 1)|;
    }
  }

  lemma {:induction false} KeepsFromWaves(block: seq<Tx>, waves: seq<seq<nat>>, s: Shard, base: Rows,
      sort: set<Key> -> seq<Key>, n: nat)
    requires Listing(sort) && Waved(block, waves) && RowsApart(block, waves, s) && InBlock(block, Flat(waves, |waves|))
    requires n <= |Flat(waves, |waves|)|
    requires WavesKeep(block, waves, s, base, sort)
    ensures KeepsDeclared(block, Flat(waves, |waves|), s, base, sort, n)
  {
    hide RowsApart; hide Listing; hide Execute; hide Replay; hide AfterWaves; hide WithinDeclaration; hide Flat;
    hide Waved;
    if n > 0 {
      KeepsFromWaves(block, waves, s, base, sort, n - 1);
      var order := Flat(waves, |waves|);
      var c, p := Locate(waves, n - 1, |waves|);
      assert KeepsInWave(block, waves, s, base, sort, c, p);
      WaveOf(block, waves, c);
      FlatStands(waves, c, |waves|);
      KeepsFewer(block, order, s, base, sort, n - 1, |Flat(waves, c)|);
      WavesAreReplay(block, waves, s, base, sort, c);
      ApartIn(block, waves, s, c);
      SameOutcome(block, order, waves[c], s, base, sort, |Flat(waves, c)|, p);
      assert order[n - 1] == waves[c][p];
    }
  }

  /** If every member keeps to its declared accesses, running the waves is serial replay of
      their concatenation: the same final state and the same receipts. */
  lemma WavesSerializable(block: seq<Tx>, waves: seq<seq<nat>>, s: Shard, base: Rows, sort: set<Key> -> seq<Key>)
    requires Listing(sort) && Waved(block, waves) && RowsApart(block, waves, s) && InBlock(block, Flat(waves, |waves|))
    requires WavesKeep(block, waves, s, base, sort)
    ensures AfterWaves(block, waves, s, base, sort, |waves|) == Replay(block, Flat(waves, |waves|), s, base, sort,
        |Flat(waves, |waves|)|)
    ensures forall c, p :: 0 <= c < |waves| && 0 <= p < |waves[c]| ==> SameReceipt(block, waves, s, base, sort, c, p)
  {
    hide *;
    var order := Flat(waves, |waves|);
    KeepsFromWaves(block, waves, s, base, sort, |order|);
    WavesAreReplay(block, waves, s, base, sort, |waves|);
    forall c, p | 0 <= c < |waves| && 0 <= p < |waves[c]|
      ensures SameReceipt(block, waves, s, base, sort, c, p)
    {
      FlatStands(waves, c, |waves|);
      StandsBelow(order, waves[c], |Flat(waves, c)|);
      KeepsFewer(block, order, s, base, sort, |order|, |Flat(waves, c)| + p + 1);
      ReceiptsAreReplay(block, waves, s, base, sort, c, p);
    }
  }

  // ---- The computation ----

  /** The tasks of a wave finish in any order; each fills its own slot. */
  method ExecuteWave(block: seq<Tx>, wave: seq<nat>, s: Shard, snapshot: Rows, schedule: seq<nat>)
      returns (results: seq<Option<Outcome>>)
    requires InBlock(block, wave) && (forall p :: 0 <= p < |schedule| ==> schedule[p] < |wave|)
    requires forall p: nat :: p < |wave| ==> p in schedule
    ensures |results| == |wave|
    ensures forall p :: 0 <= p < |wave| ==> results[p] == Some(Execute(block[wave[p]], snapshot, Some(s)))
  {
    results := seq(|wave|, i => None);
    hide Execute;
    for t := 0 to |schedule|
      invariant |results| == |wave|
      invariant forall r ::
        0 <= r < t ==> results[schedule[r]] == Some(Execute(block[wave[schedule[r]]], snapshot, Some(s)))
    {
      var slot := schedule[t];
      results := results[slot := Some(Execute(block[wave[slot]], snapshot, Some(s)))];
    }
    forall p | 0 <= p < |wave|
      ensures results[p] == Some(Execute(block[wave[p]], snapshot, Some(s)))
    {
      assert p in schedule;
      var r :| 0 <= r < |schedule| && schedule[r] == p;
    }
  }

  method ApplyWrites(working0: Rows, s: Shard, writes: Rows, sort: set<Key> -> seq<Key>) returns (working: Rows)
    requires Listing(sort)
    ensures working == Apply(s, working0, writes, sort)
  {
    var keys := sort(writes.Keys);
    working := working0;
    for i := 0 to |keys|
      invariant working == Stored(s, working0, writes, keys, i)
    {
      assert keys[i] in keys;
      working := working[Qualify(s, keys[i]) := writes[keys[i]]];
    }
  }

  /** All receipts of the first `c` waves. */
  ghost predicate Receipts(block: seq<Tx>, waves: seq<seq<nat>>, s: Shard, base: Rows, sort: set<Key> -> seq<Key>,
      c: nat, receipts: seq<Receipt>)
    requires Listing(sort) && Waved(block, waves)
  {
    && c <= |waves| && |receipts| == |Flat(waves, c)|
    && (forall d, p :: 0 <= d < c && 0 <= p < |waves[d]| ==> ReceiptStands(block, waves, s, base, sort, d, p, receipts))
  }

  ghost predicate ReceiptStands(block: seq<Tx>, waves: seq<seq<nat>>, s: Shard, base: Rows, sort: set<Key> -> seq<Key>,
      d: nat, p: nat, receipts: seq<Receipt>)
    requires Listing(sort) && Waved(block, waves)
  {
    && d < |waves| && p < |waves[d]| && InBlock(block, waves[d]) && |Flat(waves, d)| + p < |receipts|
    && receipts[|Flat(waves, d)| + p] == WaveReceipt(block, waves[d], s, AfterWaves(block, waves, s, base, sort, d),
      sort, p)
  }

  /** Applies the results of one wave in order, taking the state root after each. */
  method ApplyWave(block: seq<Tx>, wave: seq<nat>, s: Shard, snapshot: Rows, sort: set<Key> -> seq<Key>,
      results: seq<Option<Outcome>>)
    returns (working: Rows, receipts: seq<Receipt>)
    requires Listing(sort) && InBlock(block, wave) && |results| == |wave|
    requires forall p :: 0 <= p < |wave| ==> results[p] == Some(Execute(block[wave[p]], snapshot, Some(s)))
    ensures working == InWave(block, wave, s, snapshot, sort, |wave|)
    ensures |receipts| == |wave|
    ensures forall p :: 0 <= p < |wave| ==> receipts[p] == WaveReceipt(block, wave, s, snapshot, sort, p)
  {
    working, receipts := snapshot, [];
    hide Execute; hide Apply; hide Listing;
    for p := 0 to |wave|
      invariant working == InWave(block, wave, s, snapshot, sort, p)
      invariant |receipts| == p
      invariant forall q :: 0 <= q < p ==> receipts[q] == WaveReceipt(block, wave, s, snapshot, sort, q)
    {
      working := ApplyWrites(working, s, results[p].value.writes, sort);
      receipts := receipts + [Receipt(wave[p], results[p].value, working)];
    }
  }

  /** `executeBSXPlanWithCommitment`: wave after wave, each on the state the last one left. */
  method ExecutePlan(block: seq<Tx>, waves: seq<seq<nat>>, s: Shard, base: Rows, sort: set<Key> -> seq<Key>,
      schedules: seq<seq<nat>>)
    returns (working: Rows, receipts: seq<Receipt>)
    requires Listing(sort) && Waved(block, waves) && |schedules| == |waves|
    requires forall c :: 0 <= c < |waves| ==> Completes(schedules[c], |waves[c]|)
    ensures working == AfterWaves(block, waves, s, base, sort, |waves|)
    ensures Receipts(block, waves, s, base, sort, |waves|, receipts)
  {
    working, receipts := base, [];
    hide Execute; hide InWave; hide Listing; hide WaveReceipt; hide Waved; hide Receipts; hide Completes;
    NoReceipts(block, waves, s, base, sort);
    for c := 0 to |waves|
      invariant working == AfterWaves(block, waves, s, base, sort, c)
      invariant Receipts(block, waves, s, base, sort, c, receipts)
    {
      WaveOf(block, waves, c);
      AllSlots(schedules[c], |waves[c]|);
      var results := ExecuteWave(block, waves[c], s, working, schedules[c]);
      var after, more := ApplyWave(block, waves[c], s, working, sort, results);
      MoreReceipts(block, waves, s, base, sort, c, receipts, more);
      working, receipts := after, receipts + more;
    }
  }

  /** The order in which a wave's tasks finish: every slot once or more. */
  ghost predicate Completes(schedule: seq<nat>, n: nat) {
    (forall p :: 0 <= p < |schedule| ==> schedule[p] < n) && forall p: nat :: p < n ==> p in schedule
  }

  lemma AllSlots(schedule: seq<nat>, n: nat)
    requires Completes(schedule, n)
    ensures (forall p :: 0 <= p < |schedule| ==> schedule[p] < n) && forall p: nat :: p < n ==> p in schedule
  {
  }

  lemma NoReceipts(block: seq<Tx>, waves: seq<seq<nat>>, s: Shard, base: Rows, sort: set<Key> -> seq<Key>)
    requires Listing(sort) && Waved(block, waves)
    ensures Receipts(block, waves, s, base, sort, 0, [])
  {
  }

  lemma MoreReceipts(block: seq<Tx>, waves: seq<seq<nat>>, s: Shard, base: Rows, sort: set<Key> -> seq<Key>, c: nat,
      receipts: seq<Receipt>, more: seq<Receipt>)
    requires Listing(sort) && Waved(block, waves) && c < |waves| && Receipts(block, waves, s, base, sort, c, receipts)
    requires InBlock(block, waves[c])
    requires |more| == |waves[c]| && forall p :: 0 <= p < |waves[c]| ==>
      more[p] == WaveReceipt(block, waves[c], s, AfterWaves(block, waves, s, base, sort, c), sort, p)
    ensures Receipts(block, waves, s, base, sort, c + 1, receipts + more)
  {
    hide Listing; hide WaveReceipt; hide AfterWaves; hide Waved; hide InBlock;
    forall d, p | 0 <= d < c + 1 && 0 <= p < |waves[d]|
      ensures ReceiptStands(block, waves, s, base, sort, d, p, receipts + more)
    {
      assert d < c ==> ReceiptStands(block, waves, s, base, sort, d, p, receipts);
    }
  }

  // ---- Waves in which nobody stands twice ----

  ghost predicate Arranged(block: seq<Tx>, waves: seq<seq<nat>>) {
    && Waved(block, waves)
    && forall c: nat, p: nat, d: nat, r: nat ::
      At(waves, c, p) && At(waves, d, r) && (c, p) != (d, r) ==> waves[c][p] != waves[d][r]
  }

  ghost predicate At(waves: seq<seq<nat>>, c: nat, p: nat) {
    c < |waves| && p < |waves[c]|
  }

  /** A plan arranges the block. */
  lemma PlanArranged(block: seq<Tx>, waves: seq<seq<nat>>)
    requires Plan(block, waves)
    ensures Arranged(block, waves)
  {
    hide Conflicts;
    forall c | 0 <= c < |waves|
      ensures InBlock(block, waves[c])
    {
      assert Peaceful(block, waves[c]);
    }
    forall c: nat, p: nat, d: nat, r: nat | At(waves, c, p) && At(waves, d, r) && (c, p) != (d, r)
      ensures waves[c][p] != waves[d][r]
    {
      assert Peaceful(block, waves[c]) && Peaceful(block, waves[d]);
      assert waves[c][p] in waves[c] && waves[d][r] in waves[d];
    }
  }

  /** The concatenated waves list nobody twice. */
  lemma ArrangedOrders(block: seq<Tx>, waves: seq<seq<nat>>)
    requires Arranged(block, waves)
    ensures InBlock(block, Flat(waves, |waves|)) && Distinct(|block|, Flat(waves, |waves|))
  {
    hide Flat; hide Waved;
    var order := Flat(waves, |waves|);
    FlatInBlock(block, waves, |waves|);
    hide Arranged;
    forall i, j | 0 <= i < j < |order|
      ensures order[i] != order[j]
    {
      var c, p := Locate(waves, i, |waves|);
      var d, r := Locate(waves, j, |waves|);
      TwoPlaces(block, waves, c, p, d, r);
    }
  }

  /** The concatenated waves of a plan list every transaction of the block exactly once. */
  lemma PlanOrders(block: seq<Tx>, waves: seq<seq<nat>>)
    requires Plan(block, waves)
    ensures Waved(block, waves) && InBlock(block, Flat(waves, |waves|))
    ensures Distinct(|block|, Flat(waves, |waves|)) && |Flat(waves, |waves|)| == |block|
    ensures forall v: nat :: v < |block| ==> v in Flat(waves, |waves|)
  {
    PlanArranged(block, waves);
    hide Plan; hide Flat;
    ArrangedOrders(block, waves);
    forall v: nat | v < |block|
      ensures v in Flat(waves, |waves|)
    {
      Covers(block, waves, v);
    }
    NothingLeft(|block|, Flat(waves, |waves|));
  }

  lemma Covers(block: seq<Tx>, waves: seq<seq<nat>>, v: nat)
    requires Plan(block, waves) && v < |block|
    ensures v in Flat(waves, |waves|)
  {
    assert Scheduled(waves, v);
    var c :| 0 <= c < |waves| && v in waves[c];
    hide *;
    FlatStands(waves, c, |waves|);
    StandsIn(Flat(waves, |waves|), waves[c], |Flat(waves, c)|, v);
  }

  lemma StandsIn(order: seq<nat>, wave: seq<nat>, lo: nat, v: nat)
    requires StandsAt(order, wave, lo) && v in wave
    ensures v in order
  {
    var p :| 0 <= p < |wave| && wave[p] == v;
    assert order[lo + p] == v;
  }

  lemma TwoPlaces(block: seq<Tx>, waves: seq<seq<nat>>, c: nat, p: nat, d: nat, r: nat)
    requires Arranged(block, waves) && At(waves, c, p) && At(waves, d, r) && (c, p) != (d, r)
    ensures |Flat(waves, c)| + p < |Flat(waves, |waves|)| && |Flat(waves, d)| + r < |Flat(waves, |waves|)|
    ensures Flat(waves, |waves|)[|Flat(waves, c)| + p] != Flat(waves, |waves|)[|Flat(waves, d)| + r]
  {
    hide Waved;
    FlatStands(waves, c, |waves|);
    FlatStands(waves, d, |waves|);
  }

  /** Waves whose members keep to their declared accesses execute serially, receipt by receipt. */
  lemma ReceiptsSerial(block: seq<Tx>, waves: seq<seq<nat>>, s: Shard, base: Rows, sort: set<Key> -> seq<Key>,
      receipts: seq<Receipt>)
    requires Listing(sort) && Waved(block, waves) && RowsApart(block, waves, s)
    requires WavesKeep(block, waves, s, base, sort) && Receipts(block, waves, s, base, sort, |waves|, receipts)
    ensures InBlock(block, Flat(waves, |waves|)) && |receipts| == |Flat(waves, |waves|)|
    ensures AfterWaves(block, waves, s, base, sort, |waves|) == Replay(block, Flat(waves, |waves|), s, base, sort,
        |receipts|)
    ensures forall i :: 0 <= i < |receipts| ==>
      receipts[i] == ReplayReceipt(block, Flat(waves, |waves|), s, base, sort, i)
  {
    hide *;
    FlatInBlock(block, waves, |waves|);
    ReceiptsLength(block, waves, s, base, sort, receipts);
    WavesSerializable(block, waves, s, base, sort);
    forall i | 0 <= i < |receipts|
      ensures receipts[i] == ReplayReceipt(block, Flat(waves, |waves|), s, base, sort, i)
    {
      var c, p := Locate(waves, i, |waves|);
      ReceiptIs(block, waves, s, base, sort, receipts, c, p);
    }
  }

  /** A planned block whose members keep to their declared accesses executes serially. */
  lemma PlannedIsSerial(block: seq<Tx>, waves: seq<seq<nat>>, s: Shard, base: Rows, sort: set<Key> -> seq<Key>,
      receipts: seq<Receipt>)
    requires Listing(sort) && Plan(block, waves) && Waved(block, waves) && RowsApart(block, waves, s)
    requires WavesKeep(block, waves, s, base, sort) && Receipts(block, waves, s, base, sort, |waves|, receipts)
    ensures InBlock(block, Flat(waves, |waves|)) && |receipts| == |block| == |Flat(waves, |waves|)|
    ensures AfterWaves(block, waves, s, base, sort, |waves|) == Replay(block, Flat(waves, |waves|), s, base, sort,
        |block|)
    ensures forall i :: 0 <= i < |block| ==> receipts[i] == ReplayReceipt(block, Flat(waves, |waves|), s, base, sort, i)
  {
    hide *;
    PlanOrders(block, waves);
    ReceiptsSerial(block, waves, s, base, sort, receipts);
  }

  lemma ReceiptsLength(block: seq<Tx>, waves: seq<seq<nat>>, s: Shard, base: Rows, sort: set<Key> -> seq<Key>,
      receipts: seq<Receipt>)
    requires Listing(sort) && Waved(block, waves) && Receipts(block, waves, s, base, sort, |waves|, receipts)
    ensures |receipts| == |Flat(waves, |waves|)|
  {
  }

  lemma ReceiptIs(block: seq<Tx>, waves: seq<seq<nat>>, s: Shard, base: Rows, sort: set<Key> -> seq<Key>,
      receipts: seq<Receipt>, c: nat, p: nat)
    requires Listing(sort) && Waved(block, waves) && InBlock(block, Flat(waves, |waves|))
    requires Receipts(block, waves, s, base, sort, |waves|, receipts)
    requires c < |waves| && p < |waves[c]| && SameReceipt(block, waves, s, base, sort, c, p)
    ensures |Flat(waves, c)| + p < |receipts| == |Flat(waves, |waves|)|
    ensures receipts[|Flat(waves, c)| + p] == ReplayReceipt(block, Flat(waves, |waves|), s, base, sort,
        |Flat(waves, c)| + p)
  {
    hide Listing; hide Waved; hide InBlock; hide AfterWaves; hide WaveReceipt; hide ReplayReceipt; hide Flat;
    assert ReceiptStands(block, waves, s, base, sort, c, p, receipts);
  }

  // ---- Both premises are needed ----

  /** The same identifiers and access lists; programs may differ. */
  ghost predicate SameLists(block: seq<Tx>, other: seq<Tx>) {
    |other| == |block| && forall i ::
      0 <= i < |block| ==> other[i].accessList == block[i].accessList && other[i].id == block[i].id
  }

  lemma ListsDeclare(block: seq<Tx>, other: seq<Tx>, i: nat)
    requires SameLists(block, other) && i < |block|
    ensures DeclaredReads(other[i]) == DeclaredReads(block[i]) && DeclaredWrites(other[i]) == DeclaredWrites(block[i])
  {
  }

  lemma ListsPlan(block: seq<Tx>, other: seq<Tx>, waves: seq<seq<nat>>)
    requires SameLists(block, other) && Plan(block, waves)
    ensures Plan(other, waves)
  {
    forall i: nat | i < |block|
      ensures DeclaredReads(other[i]) == DeclaredReads(block[i]) && DeclaredWrites(other[i]) == DeclaredWrites(block[i])
    {
      ListsDeclare(block, other, i);
    }
    hide DeclaredReads; hide DeclaredWrites;
    assert |other| == |block|;
    hide SameLists;
    forall c | 0 <= c < |waves|
      ensures Peaceful(other, waves[c])
    {
      assert Peaceful(block, waves[c]);
    }
  }

  lemma ListsArranged(block: seq<Tx>, other: seq<Tx>, waves: seq<seq<nat>>)
    requires SameLists(block, other) && Arranged(block, waves)
    ensures Arranged(other, waves)
  {
    forall c | 0 <= c < |waves|
      ensures InBlock(other, waves[c])
    {
      assert InBlock(block, waves[c]);
    }
  }

  lemma ListsApart(block: seq<Tx>, other: seq<Tx>, waves: seq<seq<nat>>, s: Shard)
    requires SameLists(block, other) && RowsApart(block, waves, s)
    ensures RowsApart(other, waves, s)
  {
    forall i: nat | i < |block|
      ensures DeclaredReads(other[i]) == DeclaredReads(block[i]) && DeclaredWrites(other[i]) == DeclaredWrites(block[i])
    {
      ListsDeclare(block, other, i);
    }
    hide DeclaredReads; hide DeclaredWrites; hide Qualify;
    assert |other| == |block|;
    hide SameLists;
    forall c | 0 <= c < |waves|
      ensures InBlock(other, waves[c]) && WaveApart(other, waves[c], s)
    {
      ApartIn(block, waves, s, c);
      forall p, q, a, b | 0 <= p < q < |waves[c]| && a in DeclaredWrites(other[waves[c][p]])
        && b in DeclaredReads(other[waves[c][q]])
        ensures Qualify(s, a) != Qualify(s, b)
      {
      }
    }
  }

  /** `i` puts, `j` probes and everybody else idles. */
  ghost function Staging(block: seq<Tx>, i: nat, a: Key, v: Value, j: nat, b: Key): seq<Tx> {
    seq(|block|, x requires 0 <= x < |block| => block[x].(program :=
      Play(if x == i then Puts1(a, v) else if x == j then Probes(b) else Idles)))
  }

  lemma StagedTx(block: seq<Tx>, i: nat, a: Key, v: Value, j: nat, b: Key, x: nat, base: Rows, at: Option<Shard>)
    requires x < |block|
    ensures var o := Execute(Staging(block, i, a, v, j, b)[x], base, at);
            && o.writes == (if x == i then map[a := v] else map[])
            && o.observed == (if x != i && x == j then {b} else {})
            && (x != i && x == j ==> (o.success <==> Look(base, Row(at, b)) == Blank))
  {
    hide Play; hide Execute;
    var r := if x == i then Puts1(a, v) else if x == j then Probes(b) else Idles;
    Plays(Staging(block, i, a, v, j, b)[x], r, base, at);
  }

  lemma NothingApplied(s: Shard, base: Rows, sort: set<Key> -> seq<Key>)
    requires Listing(sort)
    ensures Apply(s, base, map[], sort) == base
  {
    var none: Rows := map[];
    var keys := sort(none.Keys);
    forall k
      ensures multiset(keys)[k] == 0
    {
      assert k in keys <==> k in none.Keys;
      assert k in keys <==> multiset(keys)[k] > 0;
    }
    assert multiset(keys) == multiset{};
    assert |keys| == |multiset(keys)|;
  }

  lemma OneApplied(s: Shard, base: Rows, a: Key, v: Value, sort: set<Key> -> seq<Key>)
    requires Listing(sort)
    ensures Look(Apply(s, base, map[a := v], sort), Qualify(s, a)) == v
  {
    var writes := map[a := v];
    var keys := sort(writes.Keys);
    assert a in keys;
    StoredValue(s, base, writes, keys, a, |keys|);
  }

  lemma {:induction false} StoredValue(s: Shard, base: Rows, writes: Rows, keys: seq<Key>, k: Key, i: nat)
    requires i <= |keys| && (forall l :: l in keys <==> l in writes) && writes.Keys == {k} && k in keys
    ensures i > 0 ==> Look(Stored(s, base, writes, keys, i), Qualify(s, k)) == writes[k]
  {
    if i > 0 {
      assert keys[i - 1] in keys;
    }
  }

  /** Idle transactions leave the replayed state alone. */
  lemma {:induction false} ReplayStill(block: seq<Tx>, order: seq<nat>, s: Shard, sort: set<Key> -> seq<Key>, lo: nat,
      hi: nat)
    requires Listing(sort) && lo <= hi <= |order| && InBlock(block, order)
    requires forall n, base :: lo <= n < hi ==> Execute(block[order[n]], base, Some(s)).writes == map[]
    ensures Replay(block, order, s, map[], sort, hi) == Replay(block, order, s, map[], sort, lo)
  {
    hide Execute; hide Apply; hide Listing;
    if lo < hi {
      ReplayStill(block, order, s, sort, lo, hi - 1);
      NothingApplied(s, Replay(block, order, s, map[], sort, hi - 1), sort);
    }
  }

  lemma {:induction false} WaveStill(block: seq<Tx>, wave: seq<nat>, s: Shard, snapshot: Rows,
      sort: set<Key> -> seq<Key>, p: nat)
    requires Listing(sort) && p <= |wave| && InBlock(block, wave)
    requires forall n :: 0 <= n < p ==> Execute(block[wave[n]], snapshot, Some(s)).writes == map[]
    ensures InWave(block, wave, s, snapshot, sort, p) == snapshot
  {
    hide Execute; hide Apply; hide Listing;
    if p > 0 {
      WaveStill(block, wave, s, snapshot, sort, p - 1);
      NothingApplied(s, snapshot, sort);
    }
  }

  lemma {:induction false} WavesStill(block: seq<Tx>, waves: seq<seq<nat>>, s: Shard, sort: set<Key> -> seq<Key>,
      c: nat)
    requires Listing(sort) && c <= |waves| && Waved(block, waves)
    requires forall d, n :: 0 <= d < c && 0 <= n < |waves[d]| ==>
      waves[d][n] < |block| && Execute(block[waves[d][n]], map[], Some(s)).writes == map[]
    ensures AfterWaves(block, waves, s, map[], sort, c) == map[]
  {
    hide Execute; hide Listing; hide InWave;
    if c > 0 {
      WavesStill(block, waves, s, sort, c - 1);
      WaveOf(block, waves, c - 1);
      WaveStill(block, waves[c - 1], s, map[], sort, |waves[c - 1]|);
    }
  }

  /** An earlier member of a wave puts a row and a later one probes it, by whatever name: in the
      wave it finds nothing, in the replay the put. */
  lemma PairBreaks(block: seq<Tx>, waves: seq<seq<nat>>, s: Shard, sort: set<Key> -> seq<Key>, c: nat, p: nat, q: nat,
      a: Key, v: Value, b: Key)
    requires Listing(sort) && Arranged(block, waves) && c < |waves| && p < q < |waves[c]| && InBlock(block, waves[c])
    requires Qualify(s, a) == Qualify(s, b) && v != Blank
    ensures var other := Staging(block, waves[c][p], a, v, waves[c][q], b);
            && SameLists(block, other) && Arranged(other, waves) && Waved(other, waves)
            && InBlock(other, Flat(waves, |waves|)) && (Plan(block, waves) ==> Plan(other, waves))
            && !SameReceipt(other, waves, s, map[], sort, c, q)
  {
    hide Listing; hide Execute; hide Plan; hide AfterWaves; hide Replay; hide Qualify; hide Flat; hide Waved;
    hide Apply; hide WaveReceipt; hide ReplayReceipt; hide Play; hide Look;
    var i, j := waves[c][p], waves[c][q];
    var other := Staging(block, i, a, v, j, b);
    var order, lo := Flat(waves, |waves|), |Flat(waves, c)|;
    assert SameLists(block, other);
    if Plan(block, waves) {
      ListsPlan(block, other, waves);
    }
    ListsArranged(block, other, waves);
    ArrangedOrders(other, waves);
    FlatStands(waves, c, |waves|);
    assert At(waves, c, p) && At(waves, c, q);
    hide Arranged;
    InWaveFinds(block, waves, s, sort, c, p, q, a, v, b);
    InReplayFinds(block, order, s, sort, lo + p, lo + q, a, v, b);
    ReceiptsDiffer(other, waves, s, sort, c, q);
  }

  lemma ReceiptsDiffer(block: seq<Tx>, waves: seq<seq<nat>>, s: Shard, sort: set<Key> -> seq<Key>, c: nat, q: nat)
    requires Listing(sort) && Waved(block, waves) && InBlock(block, Flat(waves, |waves|)) && c < |waves|
    requires q < |waves[c]| && InBlock(block, waves[c])
    requires |Flat(waves, c)| + q < |Flat(waves, |waves|)|
    requires Execute(block[waves[c][q]], AfterWaves(block, waves, s, map[], sort, c), Some(s)).success
    requires !Execute(block[Flat(waves, |waves|)[|Flat(waves, c)| + q]],
        Replay(block, Flat(waves, |waves|), s, map[], sort, |Flat(waves, c)| + q), Some(s)).success
    ensures !SameReceipt(block, waves, s, map[], sort, c, q)
  {
    hide Listing; hide Execute; hide AfterWaves; hide Replay; hide Flat; hide Waved; hide InWave;
  }

  lemma InWaveFinds(block: seq<Tx>, waves: seq<seq<nat>>, s: Shard, sort: set<Key> -> seq<Key>, c: nat, p: nat, q: nat,
      a: Key, v: Value, b: Key)
    requires Listing(sort) && Arranged(block, waves) && c < |waves| && p < q < |waves[c]| && InBlock(block, waves[c])
    requires waves[c][p] != waves[c][q]
    requires Waved(Staging(block, waves[c][p], a, v, waves[c][q], b), waves)
    ensures Execute(Staging(block, waves[c][p], a, v, waves[c][q], b)[waves[c][q]],
        AfterWaves(Staging(block, waves[c][p], a, v, waves[c][q], b), waves, s, map[], sort, c), Some(s)).success
  {
    hide Listing; hide Execute; hide AfterWaves; hide Play;
    var i, j := waves[c][p], waves[c][q];
    var other := Staging(block, i, a, v, j, b);
    forall d, n | 0 <= d < c && 0 <= n < |waves[d]|
      ensures waves[d][n] < |other| && Execute(other[waves[d][n]], map[], Some(s)).writes == map[]
    {
      assert InBlock(block, waves[d]);
      assert At(waves, d, n) && At(waves, c, p);
      StagedTx(block, i, a, v, j, b, waves[d][n], map[], Some(s));
    }
    WavesStill(other, waves, s, sort, c);
    StagedTx(block, i, a, v, j, b, j, map[], Some(s));
  }

  lemma InReplayFinds(block: seq<Tx>, order: seq<nat>, s: Shard, sort: set<Key> -> seq<Key>, x: nat, y: nat, a: Key,
      v: Value, b: Key)
    requires Listing(sort) && InBlock(block, order) && Distinct(|block|, order) && x < y < |order|
    requires Qualify(s, a) == Qualify(s, b) && v != Blank
    ensures InBlock(Staging(block, order[x], a, v, order[y], b), order)
    ensures !Execute(Staging(block, order[x], a, v, order[y], b)[order[y]],
        Replay(Staging(block, order[x], a, v, order[y], b), order, s, map[], sort, y), Some(s)).success
  {
    hide Listing; hide Execute; hide Replay; hide Qualify; hide Apply; hide Play; hide Look;
    var i, j := order[x], order[y];
    var other := Staging(block, i, a, v, j, b);
    assert InBlock(other, order);
    forall n, base | 0 <= n < y && n != x
      ensures Execute(other[order[n]], base, Some(s)).writes == map[]
    {
      StagedTx(block, i, a, v, j, b, order[n], base, Some(s));
    }
    StagedTx(block, i, a, v, j, b, i, Replay(other, order, s, map[], sort, x), Some(s));
    ReplayPut(other, order, s, sort, x, a, v);
    ReplayStill(other, order, s, sort, x + 1, y);
    StagedTx(block, i, a, v, j, b, j, Replay(other, order, s, map[], sort, y), Some(s));
  }

  lemma ReplayPut(block: seq<Tx>, order: seq<nat>, s: Shard, sort: set<Key> -> seq<Key>, x: nat, a: Key, v: Value)
    requires Listing(sort) && InBlock(block, order) && x < |order|
    requires Execute(block[order[x]], Replay(block, order, s, map[], sort, x), Some(s)).writes == map[a := v]
    ensures Look(Replay(block, order, s, map[], sort, x + 1), Qualify(s, a)) == v
  {
    hide Listing; hide Execute; hide Qualify; hide Apply; hide Look;
    OneApplied(s, Replay(block, order, s, map[], sort, x), a, v, sort);
  }

  /** Everything a plan promises of its execution: state and receipts of the serial replay. */
  ghost predicate ReplaysSerially(block: seq<Tx>, waves: seq<seq<nat>>, s: Shard, base: Rows,
      sort: set<Key> -> seq<Key>)
    requires Listing(sort) && Waved(block, waves) && InBlock(block, Flat(waves, |waves|))
  {
    && AfterWaves(block, waves, s, base, sort, |waves|) == Replay(block, Flat(waves, |waves|), s, base, sort,
      |Flat(waves, |waves|)|)
    && forall c, p :: 0 <= c < |waves| && 0 <= p < |waves[c]| ==> SameReceipt(block, waves, s, base, sort, c, p)
  }

  lemma StagedKeeps(block: seq<Tx>, waves: seq<seq<nat>>, s: Shard, sort: set<Key> -> seq<Key>, i: nat, a: Key,
      v: Value, j: nat, b: Key)
    requires Listing(sort) && Waved(block, waves) && Waved(Staging(block, i, a, v, j, b), waves) && i < |block|
    requires j < |block| && i != j
    requires a in DeclaredWrites(block[i]) && b in DeclaredReads(block[j])
    ensures WavesKeep(Staging(block, i, a, v, j, b), waves, s, map[], sort)
  {
    hide Listing; hide Execute; hide AfterWaves; hide Play; hide DeclaredReads; hide DeclaredWrites;
    var other := Staging(block, i, a, v, j, b);
    forall c, p | 0 <= c < |waves| && 0 <= p < |waves[c]|
      ensures KeepsInWave(other, waves, s, map[], sort, c, p)
    {
      assert InBlock(block, waves[c]);
      var x := waves[c][p];
      StagedTx(block, i, a, v, j, b, x, AfterWaves(other, waves, s, map[], sort, c), Some(s));
      ListsDeclare(block, other, x);
    }
  }

  /** Whenever an earlier member of a wave declares to write a row that a later one declares to
      read, there are programs that keep to their declared accesses and whose receipts differ from
      the serial ones. In a plan the two have different names for the row. */
  lemma SharedRowBreaks(block: seq<Tx>, waves: seq<seq<nat>>, s: Shard, sort: set<Key> -> seq<Key>, c: nat, p: nat,
      q: nat, a: Key, b: Key) returns (other: seq<Tx>)
    requires Listing(sort) && Arranged(block, waves) && c < |waves| && p < q < |waves[c]| && InBlock(block, waves[c])
    requires a in DeclaredWrites(block[waves[c][p]]) && b in DeclaredReads(block[waves[c][q]])
    requires Qualify(s, a) == Qualify(s, b)
    ensures SameLists(block, other) && Arranged(other, waves) && Waved(other, waves)
    ensures InBlock(other, Flat(waves, |waves|)) && (Plan(block, waves) ==> Plan(other, waves))
    ensures WavesKeep(other, waves, s, map[], sort) && !ReplaysSerially(other, waves, s, map[], sort)
  {
    hide Listing; hide AfterWaves; hide Replay; hide Qualify; hide Flat; hide DeclaredReads; hide DeclaredWrites;
    hide SameReceipt; hide WavesKeep; hide Staging; hide Plan; hide Waved;
    var v := Text(a.name);
    other := Staging(block, waves[c][p], a, v, waves[c][q], b);
    assert At(waves, c, p) && At(waves, c, q);
    assert waves[c][p] != waves[c][q];
    PairBreaks(block, waves, s, sort, c, p, q, a, v, b);
    StagedKeeps(block, waves, s, sort, waves[c][p], a, v, waves[c][q], b);
  }

  /** Whenever a wave has two members of which the earlier declares a write, a program of the
      later one that reads the key without declaring it makes the receipts differ. */
  lemma UndeclaredReadBreaks(block: seq<Tx>, waves: seq<seq<nat>>, s: Shard, sort: set<Key> -> seq<Key>, c: nat,
      p: nat, q: nat, a: Key) returns (other: seq<Tx>)
    requires Listing(sort) && Plan(block, waves) && c < |waves| && p < q < |waves[c]| && InBlock(block, waves[c])
    requires a in DeclaredWrites(block[waves[c][p]])
    ensures SameLists(block, other) && Plan(other, waves) && Waved(other, waves) && InBlock(other, Flat(waves, |waves|))
    ensures a !in DeclaredReads(other[waves[c][q]]) && !ReplaysSerially(other, waves, s, map[], sort)
  {
    assert Peaceful(block, waves[c]);
    assert !Conflicts(block[waves[c][p]], block[waves[c][q]]);
    assert a !in DeclaredWrites(block[waves[c][p]]) * DeclaredReads(block[waves[c][q]]);
    hide Listing; hide AfterWaves; hide Replay; hide Qualify; hide Flat; hide DeclaredReads; hide DeclaredWrites;
    hide SameReceipt; hide Waved; hide Peaceful; hide Conflicts; hide Staging;
    PlanArranged(block, waves);
    hide Plan; hide Arranged;
    var v := Text(a.name);
    other := Staging(block, waves[c][p], a, v, waves[c][q], a);
    PairBreaks(block, waves, s, sort, c, p, q, a, v, a);
    ListsDeclare(block, other, waves[c][q]);
  }

  /** Some wave writes a row before it reads it by another name. */
  lemma Clashing(block: seq<Tx>, waves: seq<seq<nat>>, s: Shard) returns (c: nat, p: nat, q: nat, a: Key, b: Key)
    requires Waved(block, waves) && !RowsApart(block, waves, s)
    ensures c < |waves| && p < q < |waves[c]| && InBlock(block, waves[c])
    ensures a in DeclaredWrites(block[waves[c][p]]) && b in DeclaredReads(block[waves[c][q]])
    ensures Qualify(s, a) == Qualify(s, b)
  {
    hide Waved; hide DeclaredReads; hide DeclaredWrites; hide Qualify; hide WaveApart;
    forall d: nat | d < |waves|
      ensures InBlock(block, waves[d])
    {
      hide InBlock;
      WaveOf(block, waves, d);
    }
    c :| c < |waves| && !WaveApart(block, waves[c], s);
    hide RowsApart;
    p, q, a, b := ClashIn(block, waves[c], s);
  }

  lemma ClashIn(block: seq<Tx>, wave: seq<nat>, s: Shard) returns (p: nat, q: nat, a: Key, b: Key)
    requires InBlock(block, wave) && !WaveApart(block, wave, s)
    ensures p < q < |wave| && a in DeclaredWrites(block[wave[p]]) && b in DeclaredReads(block[wave[q]])
    ensures Qualify(s, a) == Qualify(s, b)
  {
    hide DeclaredReads; hide DeclaredWrites; hide Qualify;
    p, q, a, b :| p < q < |wave| && a in DeclaredWrites(block[wave[p]]) && b in DeclaredReads(block[wave[q]])
      && Qualify(s, a) == Qualify(s, b);
  }

  /** The exact condition, for waves of any origin: access lists make every block with programs
      that keep to them replay serially exactly if no wave writes a row before it reads it. */
  lemma SerialExactly(block: seq<Tx>, waves: seq<seq<nat>>, s: Shard, sort: set<Key> -> seq<Key>)
    requires Listing(sort) && Arranged(block, waves)
    ensures RowsApart(block, waves, s) <==>
            (forall other, base :: SameLists(block, other) && Waved(other, waves)
              && InBlock(other, Flat(waves, |waves|)) && WavesKeep(other, waves, s, base, sort)
              ==> ReplaysSerially(other, waves, s, base, sort))
  {
    hide Listing; hide SameLists; hide Waved; hide WavesKeep; hide ReplaysSerially; hide Flat; hide Plan;
    hide DeclaredReads; hide DeclaredWrites; hide Qualify; hide RowsApart; hide InBlock; hide Distinct;
    assert Waved(block, waves);
    hide Arranged;
    if RowsApart(block, waves, s) {
      forall other, base | SameLists(block, other) && Waved(other, waves) && InBlock(other, Flat(waves, |waves|))
        && WavesKeep(other, waves, s, base, sort)
        ensures ReplaysSerially(other, waves, s, base, sort)
      {
        ListsApart(block, other, waves, s);
        Replays(other, waves, s, base, sort);
      }
    } else {
      var c, p, q, a, b := Clashing(block, waves, s);
      assert waves[c][p] < |block|
        && waves[c][q] < |block| by { InPlace(block, waves[c], p); InPlace(block, waves[c], q); }
      var other := SharedRowBreaks(block, waves, s, sort, c, p, q, a, b);
    }
  }

  lemma InPlace(block: seq<Tx>, wave: seq<nat>, p: nat)
    requires InBlock(block, wave) && p < |wave|
    ensures wave[p] < |block|
  {
  }

  lemma Replays(block: seq<Tx>, waves: seq<seq<nat>>, s: Shard, base: Rows, sort: set<Key> -> seq<Key>)
    requires Listing(sort) && Waved(block, waves) && RowsApart(block, waves, s) && InBlock(block, Flat(waves, |waves|))
    requires WavesKeep(block, waves, s, base, sort)
    ensures ReplaysSerially(block, waves, s, base, sort)
  {
    hide Listing; hide Waved; hide RowsApart; hide InBlock; hide WavesKeep; hide SameReceipt; hide Flat;
    hide AfterWaves; hide Replay;
    WavesSerializable(block, waves, s, base, sort);
  }

  // ---- What a conflict-free wave gives beyond replay ----

  /** Different names that the block declares are different rows. */
  ghost predicate NamesApart(block: seq<Tx>, s: Shard) {
    forall i, j, a, b ::
      && 0 <= i < |block| && 0 <= j < |block| && a in DeclaredKeys(block[i]) && b in DeclaredKeys(block[j])
      && Qualify(s, a) == Qualify(s, b)
      ==> a == b
  }

  ghost predicate HasRow(s: Shard, writes: Rows, r: Key) {
    exists k :: k in writes && Qualify(s, k) == r
  }

  /** What storing a write set does to a row does not depend on the rows before. */
  lemma {:induction false} StoredRow(s: Shard, base: Rows, writes: Rows, keys: seq<Key>, i: nat, r: Key)
    requires i <= |keys| && forall k :: k in keys ==> k in writes
    ensures (forall j :: 0 <= j < i ==> Qualify(s, keys[j]) != r) ==>
      && (r in Stored(s, base, writes, keys, i) <==> r in base)
      && (r in base ==> Stored(s, base, writes, keys, i)[r] == base[r])
    ensures (exists j :: 0 <= j < i && Qualify(s, keys[j]) == r) ==>
      && r in Stored(s, base, writes, keys, i) && r in Stored(s, map[], writes, keys, i)
      && Stored(s, base, writes, keys, i)[r] == Stored(s, map[], writes, keys, i)[r]
  {
    hide Qualify;
    if i > 0 {
      StoredRow(s, base, writes, keys, i - 1, r);
      assert keys[i - 1] in keys;
    }
  }

  lemma AppliedRow(s: Shard, base: Rows, writes: Rows, sort: set<Key> -> seq<Key>, r: Key)
    requires Listing(sort)
    ensures !HasRow(s, writes, r) ==> (r in Apply(s, base, writes, sort) <==> r in base)
    ensures !HasRow(s, writes, r) && r in base ==> Apply(s, base, writes, sort)[r] == base[r]
    ensures HasRow(s, writes, r) ==> r in Apply(s, base, writes, sort) && r in Apply(s, map[], writes, sort)
    ensures HasRow(s, writes, r) ==> Apply(s, base, writes, sort)[r] == Apply(s, map[], writes, sort)[r]
  {
    ListingOf(sort, writes.Keys);
    hide Listing; hide Qualify; hide Stored;
    var keys := sort(writes.Keys);
    StoredRow(s, base, writes, keys, |keys|, r);
    if HasRow(s, writes, r) {
      var k :| k in writes && Qualify(s, k) == r;
      assert k in keys;
      var j :| 0 <= j < |keys| && keys[j] == k;
      assert Qualify(s, keys[j]) == r;
    } else {
      forall j | 0 <= j < |keys|
        ensures Qualify(s, keys[j]) != r
      {
        assert keys[j] in keys;
      }
    }
  }

  /** What member `u` writes when it runs on the snapshot. */
  ghost function WritesOn(block: seq<Tx>, s: Shard, snapshot: Rows, u: nat): Rows
    requires u < |block|
  {
    Execute(block[u], snapshot, Some(s)).writes
  }

  /** No two members write one row. */
  ghost predicate OneWriterPerRow(block: seq<Tx>, s: Shard, snapshot: Rows, wave: seq<nat>) {
    forall u, v, r ::
      && u in wave && v in wave && u < |block| && v < |block|
      && HasRow(s, WritesOn(block, s, snapshot, u), r) && HasRow(s, WritesOn(block, s, snapshot, v), r)
      ==> u == v
  }

  /** After applying results in the given order, a row has what its one writer stores, or else what
      it had. */
  ghost predicate RowIs(block: seq<Tx>, s: Shard, snapshot: Rows, sort: set<Key> -> seq<Key>, done: set<nat>,
      rows: Rows, r: Key)
    requires Listing(sort)
  {
    && (forall u :: u in done && u < |block| && HasRow(s, WritesOn(block, s, snapshot, u), r) ==>
      && r in rows && r in Apply(s, map[], WritesOn(block, s, snapshot, u), sort)
      && rows[r] == Apply(s, map[], WritesOn(block, s, snapshot, u), sort)[r])
    && ((forall u :: u in done && u < |block| ==> !HasRow(s, WritesOn(block, s, snapshot, u), r)) ==>
      && (r in rows <==> r in snapshot)
      && (r in rows ==> rows[r] == snapshot[r]))
  }

  ghost function Members(order: seq<nat>, n: nat): set<nat>
    requires n <= |order|
  {
    set p | 0 <= p < n :: order[p]
  }

  lemma {:induction false} OrderRow(block: seq<Tx>, order: seq<nat>, s: Shard, snapshot: Rows,
      sort: set<Key> -> seq<Key>, n: nat, r: Key)
    requires Listing(sort) && n <= |order| && InBlock(block, order) && OneWriterPerRow(block, s, snapshot, order)
    ensures RowIs(block, s, snapshot, sort, Members(order, n), InWave(block, order, s, snapshot, sort, n), r)
  {
    hide Listing; hide Execute; hide Apply; hide HasRow;
    if n > 0 {
      OrderRow(block, order, s, snapshot, sort, n - 1, r);
      var before, u := InWave(block, order, s, snapshot, sort, n - 1), order[n - 1];
      AppliedRow(s, before, WritesOn(block, s, snapshot, u), sort, r);
      assert Members(order, n) == Members(order, n - 1) + {u};
      forall v | v in Members(order, n - 1)
        ensures v in order && u in order
      {
      }
      hide InWave; hide Members;
    }
  }

  /** Whatever the order in which the results of a wave are applied, the same rows result, if no
      two members write one row. */
  lemma AnyOrder(block: seq<Tx>, wave: seq<nat>, order: seq<nat>, s: Shard, snapshot: Rows, sort: set<Key> -> seq<Key>)
    requires Listing(sort) && InBlock(block, wave) && InBlock(block, order) && forall u :: u in order <==> u in wave
    requires OneWriterPerRow(block, s, snapshot, wave)
    ensures InWave(block, order, s, snapshot, sort, |order|) == InWave(block, wave, s, snapshot, sort, |wave|)
  {
    hide Listing; hide Execute; hide Apply; hide HasRow; hide InWave; hide WritesOn;
    var a, b := InWave(block, order, s, snapshot, sort, |order|), InWave(block, wave, s, snapshot, sort, |wave|);
    forall u: nat
      ensures u in Members(order, |order|) <==> u in wave
      ensures u in Members(wave, |wave|) <==> u in wave
    {
    }
    assert Members(order, |order|) == Members(wave, |wave|);
    assert forall u :: u in Members(wave, |wave|) ==> u < |block|;
    hide Members;
    forall r
      ensures (r in a <==> r in b) && (r in a ==> a[r] == b[r])
    {
      OrderRow(block, order, s, snapshot, sort, |order|, r);
      OrderRow(block, wave, s, snapshot, sort, |wave|, r);
    }
    assert a.Keys == b.Keys;
  }

  /** Conflict-free waves whose members keep to their declared accesses have one writer per row when
      different names are different rows. */
  lemma SeparateWriters(block: seq<Tx>, wave: seq<nat>, s: Shard, snapshot: Rows)
    requires InBlock(block, wave) && Separate(block, wave) && NamesApart(block, s)
    requires forall u :: u in wave && u < |block| ==> WithinDeclaration(block[u], Execute(block[u], snapshot, Some(s)))
    ensures OneWriterPerRow(block, s, snapshot, wave)
  {
    hide Execute; hide Qualify; hide DeclaredReads; hide DeclaredWrites;
    forall u, v, r | u in wave && v in wave && u < |block| && v < |block|
      && HasRow(s, WritesOn(block, s, snapshot, u), r) && HasRow(s, WritesOn(block, s, snapshot, v), r)
      ensures u == v
    {
      var a :| a in WritesOn(block, s, snapshot, u) && Qualify(s, a) == r;
      var b :| b in WritesOn(block, s, snapshot, v) && Qualify(s, b) == r;
      assert a in WritesOn(block, s, snapshot, u).Keys && b in WritesOn(block, s, snapshot, v).Keys;
      assert a in DeclaredKeys(block[u]) && b in DeclaredKeys(block[v]);
      assert a == b;
      assert Disturbs(block[u], block[v]);
    }
  }

  /** So the rows after a planned wave do not depend on the order of applying its results. */
  lemma PlannedAnyOrder(block: seq<Tx>, waves: seq<seq<nat>>, s: Shard, base: Rows, sort: set<Key> -> seq<Key>, c: nat,
      order: seq<nat>)
    requires Listing(sort) && Plan(block, waves) && Waved(block, waves) && NamesApart(block, s) && c < |waves|
    requires WavesKeep(block, waves, s, base, sort) && InBlock(block, order)
    requires forall u :: u in order <==> u in waves[c]
    ensures AfterWaves(block, waves, s, base, sort, c + 1)
         == InWave(block, order, s, AfterWaves(block, waves, s, base, sort, c), sort, |order|)
  {
    hide Listing; hide Execute; hide InWave; hide NamesApart; hide WithinDeclaration; hide Conflicts;
    var snapshot := AfterWaves(block, waves, s, base, sort, c);
    assert Peaceful(block, waves[c]) && InBlock(block, waves[c]);
    PeacefulIsSeparate(block, waves[c]);
    forall u | u in waves[c] && u < |block|
      ensures WithinDeclaration(block[u], Execute(block[u], snapshot, Some(s)))
    {
      var p :| 0 <= p < |waves[c]| && waves[c][p] == u;
      assert KeepsInWave(block, waves, s, base, sort, c, p);
    }
    SeparateWriters(block, waves[c], s, snapshot);
    AnyOrder(block, waves[c], order, s, snapshot, sort);
  }
}
