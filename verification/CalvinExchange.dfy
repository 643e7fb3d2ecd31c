/** The read-result exchange of one node: results arrive in any order, repeated or
    conflicting, while an executing transaction waits until every required shard's result is
    there. */
module CalvinExchange {
  import opened Basics
  import opened Transactions

  /** Names one transaction of one block. */
  type Slot = Token

  datatype ReadResult = ReadResult(slot: Slot, shard: Shard, sender: Token, readKeys: seq<Key>, values: Rows)

  function Set(keys: seq<Key>): set<Key> {
    set k | k in keys
  }

  ghost predicate Distinct(keys: seq<Key>) {
    forall i, j :: 0 <= i < j < |keys| ==> keys[i] != keys[j]
  }

  /** `exactCalvinKeySet`: the keys are listed once each and are exactly the keys with values. */
  method ExactKeySet(values: Rows, keys: seq<Key>) returns (ok: bool)
    ensures ok <==> Distinct(keys) && Set(keys) == values.Keys
  {
    if |values| != |keys| {
      if Distinct(keys) {
        DistinctCount(keys, Set(keys));
      }
      return false;
    }
    var seen: set<Key> := {};
    for n := 0 to |keys|
      invariant forall k :: k in seen <==> k in keys[..n]
      invariant Distinct(keys[..n]) && seen <= values.Keys
    {
      if keys[n] in seen || keys[n] !in values {
        assert keys[n] in Set(keys);
        return false;
      }
      seen := seen + {keys[n]};
    }
    assert keys[..|keys|] == keys;
    DistinctCount(keys, Set(keys));
    assert Set(keys) == seen;
    FullSubset(seen, values.Keys);
    return true;
  }

  /** A result whose key list is exact and whose sender leads its shard. */
  ghost predicate WellSent(r: ReadResult, leader: map<Shard, Token>) {
    Distinct(r.readKeys) && Set(r.readKeys) == r.values.Keys && r.shard in leader && r.sender == leader[r.shard]
  }

  /** What the digest covers: everything but the sender, the keys regardless of order. */
  predicate SameContent(a: ReadResult, b: ReadResult) {
    a.slot == b.slot && a.shard == b.shard && multiset(a.readKeys) == multiset(b.readKeys) && a.values == b.values
  }

  /** Of two results that one shard sends for one transaction only the values can differ. */
  lemma ContentIsValues(a: ReadResult, b: ReadResult, leader: map<Shard, Token>)
    requires WellSent(a, leader) && WellSent(b, leader) && a.slot == b.slot && a.shard == b.shard
    ensures SameContent(a, b) <==> a.values == b.values
  {
    if a.values == b.values {
      forall k
        ensures multiset(a.readKeys)[k] == multiset(b.readKeys)[k]
      {
        OccursOnce(a.readKeys, k);
        OccursOnce(b.readKeys, k);
        assert k in a.readKeys <==> k in Set(a.readKeys);
        assert k in b.readKeys <==> k in Set(b.readKeys);
      }
    }
  }

  lemma {:induction false} OccursOnce(keys: seq<Key>, k: Key)
    requires Distinct(keys)
    ensures multiset(keys)[k] == if k in keys then 1 else 0
  {
    if keys != [] {
      var n := |keys| - 1;
      OccursOnce(keys[..n], k);
      assert keys == keys[..n] + [keys[n]];
    }
  }

  /** The first result of each shard in an arrival history. */
  ghost function FirstByShard(arrivals: seq<ReadResult>): map<Shard, ReadResult> {
    if arrivals == [] then map[]
    else
      var before, r := FirstByShard(arrivals[..|arrivals| - 1]), arrivals[|arrivals| - 1];
      if r.shard in before then before else before[r.shard := r]
  }

  /** The shard has sent a result. */
  ghost predicate Speaks(arrivals: seq<ReadResult>, s: Shard) {
    exists p :: 0 <= p < |arrivals| && arrivals[p].shard == s
  }

  lemma {:induction false} FirstIsFirst(arrivals: seq<ReadResult>, s: Shard)
    ensures s in FirstByShard(arrivals) <==> Speaks(arrivals, s)
    ensures s in FirstByShard(arrivals) ==> exists p ::
      0 <= p < |arrivals| && FirstByShard(arrivals)[s] == arrivals[p] && arrivals[p].shard == s
                                                        && forall q :: 0 <= q < p ==> arrivals[q].shard != s
  {
    if arrivals != [] {
      var n := |arrivals| - 1;
      var rest := arrivals[..n];
      FirstIsFirst(rest, s);
      if s in FirstByShard(rest) {
        var p :| 0 <= p < n && FirstByShard(rest)[s] == rest[p] && rest[p].shard == s && forall q ::
          0 <= q < p ==> rest[q].shard != s;
        assert FirstByShard(arrivals)[s] == arrivals[p];
        assert arrivals[p].shard == s;
      } else {
        assert forall q :: 0 <= q < n ==> rest[q].shard != s;
        assert arrivals[n].shard == s ==> FirstByShard(arrivals)[s] == arrivals[n];
      }
    }
  }

  /** The shards a transaction waits for and the channel it waits on. */
  datatype Waiter = Waiter(required: set<Shard>, channel: nat)

  datatype PollResult = Complete(values: Rows) | Mismatch | Wait(channel: nat)

  function KeysOf(expected: map<Shard, seq<Key>>, s: Shard): seq<Key> {
    if s in expected then expected[s] else []
  }

  /** The present results of these shards match their declared reads. */
  ghost predicate Declared(rows: map<Shard, ReadResult>, required: set<Shard>, expected: map<Shard, seq<Key>>) {
    forall s :: s in required && s in rows ==> multiset(rows[s].readKeys) == multiset(KeysOf(expected, s))
  }

  /** Declared read keys of different shards do not overlap. */
  ghost predicate Apart(expected: map<Shard, seq<Key>>) {
    forall s, z, k :: s in expected && z in expected && s != z && k in expected[s] ==> k !in expected[z]
  }

  /** `values` adds to `local` exactly the values of these shards. */
  ghost predicate Merges(values: Rows, local: Rows, rows: map<Shard, ReadResult>, required: set<Shard>) {
    && required <= rows.Keys
    && (forall k :: k in values <==> k in local || exists s :: s in required && k in rows[s].values)
    && (forall s, k :: s in required && k in rows[s].values ==> k in values && values[k] == rows[s].values[k])
    && (forall k ::
      k in local && (forall s :: s in required ==> k !in rows[s].values) ==> k in values && values[k] == local[k])
  }

  /** Results of different shards have no key in common. */
  ghost predicate NoOverlap(rows: map<Shard, ReadResult>, required: set<Shard>) {
    forall s, z, k :: s in required && z in required && s in rows && z in rows && s != z && k in rows[s].values
      ==> k !in rows[z].values
  }

  lemma MergeOne(values: Rows, local: Rows, rows: map<Shard, ReadResult>, required: set<Shard>, merged: set<Shard>,
      s: Shard)
    requires NoOverlap(rows, required) && merged <= required && s in required && s in rows && s !in merged
    requires Merges(values, local, rows, merged)
    ensures Merges(values + rows[s].values, local, rows, merged + {s})
  {
  }

  lemma DeclaredApart(rows: map<Shard, ReadResult>, required: set<Shard>, expected: map<Shard, seq<Key>>,
      leader: map<Shard, Token>)
    requires Apart(expected) && Declared(rows, required, expected)
    requires forall s :: s in rows ==> WellSent(rows[s], leader)
    ensures NoOverlap(rows, required)
    ensures forall s :: s in required && s in rows ==> rows[s].values.Keys == Set(KeysOf(expected, s))
  {
    hide Distinct;
    forall s | s in required && s in rows
      ensures rows[s].values.Keys == Set(KeysOf(expected, s))
    {
      SameKeys(rows[s].readKeys, KeysOf(expected, s));
    }
  }

  /** Merges the results of the required shards, taken in any order. */
  method MergeAll(local: Rows, rows: map<Shard, ReadResult>, required: set<Shard>) returns (values: Rows)
    requires required <= rows.Keys && NoOverlap(rows, required)
    ensures Merges(values, local, rows, required)
  {
    values := local;
    var todo := required;
    MergeNone(local, rows);
    hide Merges; hide NoOverlap;
    while todo != {}
      invariant todo <= required && Merges(values, local, rows, required - todo)
      decreases |todo|
    {
      var s :| s in todo;
      MergeOne(values, local, rows, required, required - todo, s);
      assert required - todo + {s} == required - (todo - {s});
      values := values + rows[s].values;
      todo := todo - {s};
    }
    assert required - {} == required;
  }

  lemma MergeNone(local: Rows, rows: map<Shard, ReadResult>)
    ensures forall required: set<Shard> :: Merges(local, local, rows, required - required)
  {
  }

  lemma SameKeys(a: seq<Key>, b: seq<Key>)
    requires multiset(a) == multiset(b)
    ensures Set(a) == Set(b)
  {
    forall k
      ensures k in a <==> k in b
    {
      assert k in a <==> k in multiset(a);
      assert k in b <==> k in multiset(b);
    }
  }

  type Board = map<Slot, map<Shard, ReadResult>>

  function RowsIn(results: Board, slot: Slot): map<Shard, ReadResult> {
    if slot in results then results[slot] else map[]
  }

  ghost function ArrivalsIn(arrivals: map<Slot, seq<ReadResult>>, slot: Slot): seq<ReadResult> {
    if slot in arrivals then arrivals[slot] else []
  }

  /** The board holds the first result of each shard and no other. */
  ghost predicate FirstKept(results: Board, arrivals: map<Slot, seq<ReadResult>>) {
    forall slot :: RowsIn(results, slot) == FirstByShard(ArrivalsIn(arrivals, slot))
  }

  ghost predicate StoredAt(r: ReadResult, leader: map<Shard, Token>, slot: Slot, s: Shard) {
    WellSent(r, leader) && r.slot == slot && r.shard == s
  }

  ghost predicate AllWellSent(results: Board, leader: map<Shard, Token>) {
    forall slot, s :: s in RowsIn(results, slot) ==> StoredAt(RowsIn(results, slot)[s], leader, slot, s)
  }

  lemma KeptBySlot(results: Board, leader: map<Shard, Token>, slot: Slot, s: Shard)
    requires AllWellSent(results, leader) && s in RowsIn(results, slot)
    ensures var r := RowsIn(results, slot)[s]; WellSent(r, leader) && r.slot == slot && r.shard == s
  {
  }

  lemma KeepFirst(results: Board, arrivals: map<Slot, seq<ReadResult>>, leader: map<Shard, Token>, r: ReadResult)
    requires FirstKept(results, arrivals) && AllWellSent(results, leader) && WellSent(r, leader)
    ensures var rows := RowsIn(results, r.slot);
            var results' := if r.shard in rows then results else results[r.slot := rows[r.shard := r]];
            FirstKept(results', arrivals[r.slot := ArrivalsIn(arrivals, r.slot) + [r]]) && AllWellSent(results', leader)
  {
    FirstGrows(ArrivalsIn(arrivals, r.slot), r);
    hide FirstByShard; hide WellSent;
    var rows := RowsIn(results, r.slot);
    var results' := if r.shard in rows then results else results[r.slot := rows[r.shard := r]];
    var arrivals' := arrivals[r.slot := ArrivalsIn(arrivals, r.slot) + [r]];
    forall z
      ensures RowsIn(results', z) == FirstByShard(ArrivalsIn(arrivals', z))
      ensures forall s :: s in RowsIn(results', z) ==> StoredAt(RowsIn(results', z)[s], leader, z, s)
    {
      assert RowsIn(results, z) == FirstByShard(ArrivalsIn(arrivals, z));
    }
  }

  lemma Forget(results: Board, arrivals: map<Slot, seq<ReadResult>>, leader: map<Shard, Token>, slot: Slot)
    requires FirstKept(results, arrivals) && AllWellSent(results, leader)
    ensures FirstKept(results - {slot}, arrivals - {slot}) && AllWellSent(results - {slot}, leader)
  {
    assert FirstByShard([]) == map[];
    hide FirstByShard; hide WellSent;
    forall z
      ensures RowsIn(results - {slot}, z) == FirstByShard(ArrivalsIn(arrivals - {slot}, z))
      ensures forall s :: s in RowsIn(results - {slot}, z) ==>
        StoredAt(RowsIn(results - {slot}, z)[s], leader, z, s)
    {
      assert RowsIn(results, z) == FirstByShard(ArrivalsIn(arrivals, z));
    }
  }

  /** Open channels are numbered apart and are not closed. */
  ghost predicate Channels(signal: map<Slot, nat>, closed: set<nat>, nextChannel: nat) {
    && (forall slot :: slot in signal ==> signal[slot] < nextChannel && signal[slot] !in closed)
    && (forall a, b :: a in signal && b in signal && a != b ==> signal[a] != signal[b])
    && (forall n :: n in closed ==> n < nextChannel)
  }

  ghost predicate Missing(rows: map<Shard, ReadResult>, required: set<Shard>) {
    exists s :: s in required && s !in rows
  }

  /** A waiter whose channel is still open is registered on it and misses a required shard. */
  ghost predicate NoLostWakeup(waiting: map<Slot, Waiter>, signal: map<Slot, nat>, closed: set<nat>, results: Board) {
    forall slot :: slot in waiting && waiting[slot].channel !in closed ==>
      slot in signal && signal[slot] == waiting[slot].channel && Missing(RowsIn(results, slot), waiting[slot].required)
  }

  /** A new result that closes the transaction's channel, if it has one, keeps everyone else
      waiting properly. */
  lemma WakeOne(waiting: map<Slot, Waiter>, signal: map<Slot, nat>, closed: set<nat>, nextChannel: nat, results: Board,
      slot: Slot, rows: map<Shard, ReadResult>)
    requires Channels(signal, closed, nextChannel) && NoLostWakeup(waiting, signal, closed, results)
    ensures var closed' := if slot in signal then closed + {signal[slot]} else closed;
            && Channels(signal - {slot}, closed', nextChannel)
            && NoLostWakeup(waiting, signal - {slot}, closed', results[slot := rows])
            && (slot in waiting ==> waiting[slot].channel in closed')
  {
    hide Missing;
  }

  lemma SleepOne(waiting: map<Slot, Waiter>, signal: map<Slot, nat>, closed: set<nat>, nextChannel: nat,
      results: Board, slot: Slot, required: set<Shard>)
    requires Channels(signal, closed, nextChannel) && NoLostWakeup(waiting, signal, closed, results)
    requires Missing(RowsIn(results, slot), required)
    ensures var signal' := if slot in signal then signal else signal[slot := nextChannel];
            && Channels(signal', closed, nextChannel + 1)
            && (slot in signal ==> Channels(signal', closed, nextChannel))
            && NoLostWakeup(waiting[slot := Waiter(required, signal'[slot])], signal', closed, results)
            && signal'[slot] !in closed
  {
    hide Missing;
  }

  lemma LeaveOne(waiting: map<Slot, Waiter>, signal: map<Slot, nat>, closed: set<nat>, nextChannel: nat,
      results: Board, slot: Slot)
    requires Channels(signal, closed, nextChannel) && NoLostWakeup(waiting, signal, closed, results)
    ensures Channels(signal - {slot}, closed, nextChannel)
    ensures NoLostWakeup(waiting - {slot}, signal - {slot}, closed, results - {slot})
  {
    hide Missing;
  }

  /** The pass over the required shards: whether what is there is what was declared, and whether
      everything is there. */
  method Scan(rows: map<Shard, ReadResult>, required: set<Shard>, expected: map<Shard, seq<Key>>)
    returns (declared: bool, complete: bool)
    ensures declared <==> Declared(rows, required, expected)
    ensures declared ==> (complete <==> required <= rows.Keys)
  {
    var todo := required;
    declared, complete := true, true;
    while todo != {}
      invariant todo <= required && complete == (required - todo <= rows.Keys)
      invariant Declared(rows, required - todo, expected)
      decreases |todo|
    {
      var s :| s in todo;
      if s in rows {
        if multiset(rows[s].readKeys) != multiset(KeysOf(expected, s)) {
          declared := false;
          return;
        }
      } else {
        complete := false;
      }
      todo := todo - {s};
    }
    assert required - {} == required;
  }

  class ReadBoard {
    const leader: map<Shard, Token>
    var results: map<Slot, map<Shard, ReadResult>>
    var signal: map<Slot, nat>
    var closed: set<nat>
    var nextChannel: nat
    /** Well-sent results for each transaction since it was last completed. */
    ghost var arrivals: map<Slot, seq<ReadResult>>
    ghost var waiting: map<Slot, Waiter>

    ghost function Arrived(slot: Slot): seq<ReadResult>
      reads this
    {
      ArrivalsIn(arrivals, slot)
    }

    function RowsFor(slot: Slot): map<Shard, ReadResult>
      reads this
    {
      RowsIn(results, slot)
    }

    ghost predicate Valid()
      reads this
    {
      && FirstKept(results, arrivals)
      && AllWellSent(results, leader)
      && Channels(signal, closed, nextChannel)
      && NoLostWakeup(waiting, signal, closed, results)
    }

    constructor (leader: map<Shard, Token>)
      ensures Valid() && this.leader == leader && arrivals == map[] && waiting == map[]
    {
      this.leader := leader;
      results, signal, closed, nextChannel := map[], map[], {}, 0;
      arrivals, waiting := map[], map[];
    }

    /** `acceptCalvinReadResult`: keeps the first result of a shard, accepts repetitions of it,
        refuses a conflicting one, and wakes the waiter on every new result. */
    method Accept(r: ReadResult) returns (ok: bool)
      requires Valid()
      modifies `results, `signal, `closed, `arrivals
      ensures Valid() && waiting == old(waiting)
      ensures ok <==> WellSent(r, leader) && (r.shard in old(RowsFor(r.slot)) ==>
        SameContent(old(RowsFor(r.slot))[r.shard], r))
      ensures ok <==> WellSent(r, leader) && (r.shard in old(RowsFor(r.slot)) ==>
        old(RowsFor(r.slot))[r.shard].values == r.values)
      ensures Arrived(r.slot) == if WellSent(r, leader) then old(Arrived(r.slot)) + [r] else old(Arrived(r.slot))
      ensures forall slot :: slot != r.slot ==> Arrived(slot) == old(Arrived(slot))
      ensures WellSent(r, leader) && r.shard !in old(RowsFor(r.slot)) && r.slot in waiting
          ==> waiting[r.slot].channel in closed
    {
      hide Distinct; hide Channels; hide NoLostWakeup; hide FirstKept; hide AllWellSent;
      var exact := ExactKeySet(r.values, r.readKeys);
      if !exact || r.shard !in leader || r.sender != leader[r.shard] {
        return false;
      }
      var rows := RowsFor(r.slot);
      KeepFirst(results, arrivals, leader, r);
      if r.shard in rows {
        KeptBySlot(results, leader, r.slot, r.shard);
        ContentIsValues(rows[r.shard], r, leader);
      }
      hide WellSent; hide SameContent;
      arrivals := arrivals[r.slot := Arrived(r.slot) + [r]];
      if r.shard in rows {
        return SameContent(rows[r.shard], r);
      }
      WakeOne(waiting, signal, closed, nextChannel, results, r.slot, rows[r.shard := r]);
      results := results[r.slot := rows[r.shard := r]];
      if r.slot in signal {
        closed := closed + {signal[r.slot]};
      }
      signal := signal - {r.slot};
      return true;
    }

    /** One turn of the wait loop of `calvinReadExchange`: returns the merged reads when every
        required shard's result is there, reports a result that does not match its declared
        reads, or goes to sleep on the transaction's channel. */
    method Poll(slot: Slot, local: Rows, required: set<Shard>, expected: map<Shard, seq<Key>>) returns (out: PollResult)
      requires Valid() && required != {} && Apart(expected)
      modifies `results, `signal, `nextChannel, `arrivals, `waiting
      ensures Valid()
      ensures out.Mismatch? <==> !Declared(old(RowsFor(slot)), required, expected)
      ensures out.Complete? <==> Declared(old(RowsFor(slot)), required, expected) && required <= old(RowsFor(slot)).Keys
      ensures out.Complete?
        ==> Merges(out.values, local, old(RowsFor(slot)), required) && Arrived(slot) == [] && slot !in waiting
      ensures out.Complete?
        ==> forall k :: k in out.values <==> k in local || exists s :: s in required && k in KeysOf(expected, s)
      ensures out.Complete? ==> forall k :: k in out.values <==>
        k in local || exists s :: s in required && s in expected && k in expected[s]
      ensures out.Wait?
        ==> slot in waiting && waiting[slot] == Waiter(required, out.channel)
            && out.channel !in closed && Arrived(slot) == old(Arrived(slot))
      ensures forall z :: z != slot ==>
        && Arrived(z) == old(Arrived(z)) && (z in waiting <==> z in old(waiting))
        && (z in waiting ==> waiting[z] == old(waiting[z]))
    {
      var rows := RowsFor(slot);
      hide FirstKept; hide Channels; hide NoLostWakeup; hide WellSent;
      var declared, complete := Scan(rows, required, expected);
      if !declared {
        return Mismatch;
      }
      if complete {
        DeclaredApart(rows, required, expected, leader);
        var values := MergeAll(local, rows, required);
        hide Merges;
        LeaveOne(waiting, signal, closed, nextChannel, results, slot);
        Forget(results, arrivals, leader, slot);
        results := results - {slot};
        signal := signal - {slot};
        arrivals := arrivals - {slot};
        waiting := waiting - {slot};
        return Complete(values);
      }
      assert Missing(RowsFor(slot), required);
      SleepOne(waiting, signal, closed, nextChannel, results, slot, required);
      if slot !in signal {
        signal := signal[slot := nextChannel];
        nextChannel := nextChannel + 1;
      }
      waiting := waiting[slot := Waiter(required, signal[slot])];
      return Wait(signal[slot]);
    }
  }

  lemma FirstGrows(arrivals: seq<ReadResult>, r: ReadResult)
    ensures FirstByShard(arrivals + [r])
      == if r.shard in FirstByShard(arrivals) then FirstByShard(arrivals) else FirstByShard(arrivals)[r.shard := r]
  {
    assert (arrivals + [r])[..|arrivals|] == arrivals;
  }

  /** Once every required shard's result has arrived, in whatever order and however often, the
      waiter's channel is closed: it will look again. */
  lemma ArrivalsWake(b: ReadBoard, slot: Slot)
    requires b.Valid() && slot in b.waiting
    requires forall s :: s in b.waiting[slot].required ==> Speaks(b.Arrived(slot), s)
    ensures b.waiting[slot].channel in b.closed
  {
    hide Channels; hide AllWellSent; hide FirstByShard;
    forall s | s in b.waiting[slot].required
      ensures s in b.RowsFor(slot)
    {
      FirstIsFirst(b.Arrived(slot), s);
    }
  }

  /** Arrival order and duplication do not matter: two histories in which the same shards speak
      and nobody contradicts itself leave the same values on the board. */
  lemma OrderIrrelevant(h: seq<ReadResult>, g: seq<ReadResult>)
    requires forall s :: Speaks(h, s) <==> Speaks(g, s)
    requires forall p, q :: 0 <= p < |h| && 0 <= q < |g| && h[p].shard == g[q].shard ==> SameContent(h[p], g[q])
    ensures FirstByShard(h).Keys == FirstByShard(g).Keys
    ensures forall s ::
      s in FirstByShard(h) && s in FirstByShard(g) ==> SameContent(FirstByShard(h)[s], FirstByShard(g)[s])
    ensures forall s ::
      s in FirstByShard(h) && s in FirstByShard(g) ==> FirstByShard(h)[s].values == FirstByShard(g)[s].values
  {
    hide FirstByShard;
    forall s
      ensures s in FirstByShard(h) <==> s in FirstByShard(g)
      ensures s in FirstByShard(h) && s in FirstByShard(g) ==> SameContent(FirstByShard(h)[s], FirstByShard(g)[s])
    {
      FirstIsFirst(h, s);
      FirstIsFirst(g, s);
    }
  }
}
