/** Stateful Calvin across all execution shards: every shard grants locks on its own keys,
    reads them, exchanges read results, executes, materializes the writes it owns and
    releases. Every interleaving of these steps ends in the rows and with the receipts of the
    serial run, exactly if the locks order everything that meets on a row. */
module CalvinStateful {
  import opened Basics
  import opened Transactions
  import opened SerialRows
  import Locks = CalvinLocks

  /** One shard's part in one transaction. */
  type Part = (Shard, nat)

  /** `readBy`: read results sent; `ran`: executed outcomes; `done`: materialized and
      released; `failed`: access violations reported, each of which stops its shard. */
  datatype State = State(working: Stores, readBy: map<Part, Rows>, ran: map<Part, Outcome>, done: set<Part>,
      failed: set<Part>)

  /** The setup is sound and a read-only transaction executes at one of its readers. */
  ghost predicate WellFormed(c: Job) {
    && Sound(c)
    && (forall i: nat ::
      i < |c.block| && DeclaredWrites(c.block[i]) == {} ==> exists k :: Reads(c, i, k) && At(c, k, c.seat[i]))
  }

  ghost predicate Participates(c: Job, s: Shard, i: nat) {
    exists k :: Declares(c, i, k) && At(c, k, s)
  }

  /** The shard executes the transaction's logic: it owns a declared write or, when there is
      none, it is the chosen reader. */
  ghost predicate Runs(c: Job, s: Shard, i: nat) {
    && i < |c.block| == |c.seat|
    && if DeclaredWrites(c.block[i]) == {} then s == c.seat[i] else exists k :: Writes(c, i, k) && At(c, k, s)
  }

  /** Two transactions want the same key at this shard and one of them writes it. */
  ghost predicate Clash(c: Job, s: Shard, j: nat, i: nat) {
    exists k :: Declares(c, j, k) && Declares(c, i, k) && At(c, k, s) && (Writes(c, j, k) || Writes(c, i, k))
  }

  /** Every earlier transaction that conflicts on a key of this shard has released here. */
  ghost predicate Granted(c: Job, done: set<Part>, s: Shard, i: nat) {
    forall j: nat :: j < i && Clash(c, s, j, i) ==> (s, j) in done
  }

  // ---- Steps ----

  ghost predicate Stopped(st: State, s: Shard) {
    exists i :: (s, i) in st.failed
  }

  ghost function Init(c: Job): State {
    State(c.bases, map[], map[], {}, {})
  }

  ghost function ReadResult(c: Job, st: State, s: Shard, i: nat): Rows
    requires i < |c.block|
  {
    map k | k in DeclaredReads(c.block[i]) && At(c, k, s) :: Peek(st.working, (s, Qualify(s, k)))
  }

  /** A granted transaction reads its keys homed here and sends the result. */
  ghost predicate ReadStep(c: Job, st: State, st': State, s: Shard, i: nat) {
    && !Stopped(st, s) && i < |c.block| && Participates(c, s, i) && Granted(c, st.done, s, i) && (s, i) !in st.readBy
    && st' == st.(readBy := st.readBy[(s, i) := ReadResult(c, st, s, i)])
  }

  /** Every reader's result has arrived. */
  ghost predicate Arrived(c: Job, readBy: map<Part, Rows>, i: nat) {
    forall k :: Reads(c, i, k) ==> k in c.home && (c.home[k], i) in readBy
  }

  ghost function Merged(c: Job, readBy: map<Part, Rows>, k: Key, i: nat): Value {
    if k in c.home && (c.home[k], i) in readBy then Look(readBy[(c.home[k], i)], k) else Blank
  }

  /** The row of a declared read shows the merged value of that key, or of another declared
      read with the same row name. */
  ghost predicate Shows(c: Job, readBy: map<Part, Rows>, s: Shard, i: nat, snap: Rows, k: Key) {
    exists a :: Reads(c, i, a) && Qualify(s, a) == Qualify(s, k) && Look(snap, Qualify(s, k)) == Merged(c, readBy, a, i)
  }

  /** A row that no declared read names shows the shard's own value. */
  ghost predicate Keeps(c: Job, working: Stores, s: Shard, i: nat, snap: Rows, k: Key) {
    (forall a :: Reads(c, i, a) ==> Qualify(s, a) != Qualify(s, k))
      ==> Look(snap, Qualify(s, k)) == Peek(working, (s, Qualify(s, k)))
  }

  /** The row image a shard may execute on: merged reads stored under local row names, in an
      order left open, then its own rows for declared keys that are still missing. */
  ghost predicate Snapshot(c: Job, st: State, s: Shard, i: nat, snap: Rows) {
    && (forall k :: Reads(c, i, k) ==> Shows(c, st.readBy, s, i, snap, k))
    && (forall k :: Declares(c, i, k) && At(c, k, s) ==> Keeps(c, st.working, s, i, snap, k))
  }

  /** An executing shard runs the transaction; a run outside its declaration stops the shard. */
  ghost predicate ExecuteStep(c: Job, st: State, st': State, s: Shard, i: nat, snap: Rows) {
    && !Stopped(st, s) && Runs(c, s, i) && Arrived(c, st.readBy, i)
    && (s, i) in st.readBy && (s, i) !in st.ran && (s, i) !in st.done
    && Snapshot(c, st, s, i, snap)
    && var o := Execute(c.block[i], snap, Some(s));
       st' == if WithinDeclaration(c.block[i], o) then st.(ran := st.ran[(s, i) := o])
         else st.(failed := st.failed + {(s, i)})
  }

  /** The row of a written key holds the value written for it, or for another written key
      with the same row. */
  ghost predicate Holds(c: Job, s: Shard, writes: Rows, after: Rows, k: Key) {
    exists a :: a in writes && At(c, a, s) && Qualify(s, a) == Qualify(s, k) && Look(after, Qualify(s, k)) == writes[a]
  }

  /** A shard's rows after its part of a write set was stored, in an order left open. */
  ghost predicate Materialized(c: Job, s: Shard, writes: Rows, before: Rows, after: Rows) {
    && (forall k :: k in writes && At(c, k, s) ==> Holds(c, s, writes, after, k))
    && (forall r ::
      (forall k :: k in writes && At(c, k, s) ==> Qualify(s, k) != r) ==> Look(after, r) == Look(before, r))
  }

  ghost function Produced(c: Job, st: State, s: Shard, i: nat): Rows {
    if Runs(c, s, i) && (s, i) in st.ran then st.ran[(s, i)].writes else map[]
  }

  /** A shard stores its part of the writes and releases its locks. */
  ghost predicate FinishStep(c: Job, st: State, st': State, s: Shard, i: nat, after: Rows) {
    && !Stopped(st, s)
    && (s, i) in st.readBy && (s, i) !in st.done && (Runs(c, s, i) ==> (s, i) in st.ran)
    && Materialized(c, s, Produced(c, st, s, i), RowsAt(st.working, s), after)
    && st' == st.(working := st.working[s := after], done := st.done + {(s, i)})
  }

  ghost predicate Next(c: Job, st: State, st': State) {
    || (exists s, i: nat :: ReadStep(c, st, st', s, i))
    || (exists s, i: nat, snap :: ExecuteStep(c, st, st', s, i, snap))
    || (exists s, i: nat, after :: FinishStep(c, st, st', s, i, after))
  }

  ghost predicate IsRun(c: Job, run: seq<State>) {
    && |run| > 0 && run[0] == Init(c)
    && forall p :: 0 <= p < |run| - 1 ==> Next(c, run[p], run[p + 1])
  }

  ghost function Last(run: seq<State>): State
    requires |run| > 0
  {
    run[|run| - 1]
  }

  // ---- What the locks order ----

  /** The three things that happen to a transaction at a shard. */
  datatype Event = ReadAt(shard: Shard, index: nat) | RunAt(shard: Shard, index: nat) | FreeAt(shard: Shard, index: nat)

  ghost function Stage(e: Event): nat {
    match e
    case ReadAt(_, _) => 0
    case RunAt(_, _) => 1
    case FreeAt(_, _) => 2
  }

  /** `d` has to happen right before `e` can: locks are granted after conflicting releases, a
      run waits for all read results, and a release for the shard's own part. */
  ghost predicate Needs(c: Job, e: Event, d: Event) {
    match e
    case ReadAt(s, i) => d.FreeAt? && d.shard == s && d.index < i && Clash(c, s, d.index, i)
    case RunAt(s, i) => d.ReadAt? && d.index == i && (d.shard == s || exists k :: Reads(c, i, k) && At(c, k, d.shard))
    case FreeAt(s, i) => d == ReadAt(s, i) || (Runs(c, s, i) && d == RunAt(s, i))
  }

  /** `d` happens before `e` in every run. Access lists and homes decide this. */
  ghost predicate Precedes(c: Job, d: Event, e: Event)
    decreases e.index, Stage(e)
  {
    Needs(c, e, d) || exists m :: Needs(c, e, m) && Precedes(c, d, m)
  }

  /** If `a` of the earlier and `b` of the later transaction are the same row, a read and a
      write, or two writes, of it happen in block order. */
  ghost predicate InOrder(c: Job, s: Shard, j: nat, a: Key, i: nat, b: Key) {
    && (Writes(c, j, a) && Reads(c, i, b) ==> Precedes(c, FreeAt(s, j), ReadAt(s, i)))
    && (Reads(c, j, a) && Writes(c, i, b) ==> Precedes(c, ReadAt(s, j), FreeAt(s, i)))
    && (Writes(c, j, a) && Writes(c, i, b) ==> Precedes(c, FreeAt(s, j), FreeAt(s, i)))
  }

  ghost predicate RowsOrdered(c: Job) {
    forall p: Place, j: nat, a, i: nat, b :: Lives(c, a, p) && Lives(c, b, p) && Declares(c, j, a) && Declares(c, i, b)
      && j < i
      ==> InOrder(c, p.0, j, a, i, b)
  }

  /** No transaction writes two names of one row. */
  ghost predicate WritesApart(c: Job) {
    forall p: Place, i: nat, a, b :: Lives(c, a, p) && Lives(c, b, p) && Writes(c, i, a) && Writes(c, i, b) ==> a == b
  }

  /** Where a transaction executes, two of its declared reads share a row name only if they are
      the same row of that shard. */
  ghost predicate ReadsApart(c: Job) {
    forall s, i: nat, a, b :: Runs(c, s, i) && Reads(c, i, a) && Reads(c, i, b) && Qualify(s, a) == Qualify(s, b)
      ==> a == b || (At(c, a, s) && At(c, b, s))
  }

  ghost predicate Orderly(c: Job) {
    RowsOrdered(c) && WritesApart(c) && ReadsApart(c)
  }

  // ---- The invariant ----

  ghost function Serial(c: Job, m: nat, p: Place): Value
    requires m <= |c.block|
  {
    ValueAt(c, Checked, m, p)
  }

  /** Whoever read here was granted its locks here, ran only with all reads, and released only
      after reading and, where it executes, after executing. */
  ghost predicate Ordered(c: Job, st: State) {
    && (forall s, i :: (s, i) in st.readBy ==> i < |c.block| && Participates(c, s, i) && Granted(c, st.done, s, i))
    && (forall s, i :: (s, i) in st.ran || (s, i) in st.done || (s, i) in st.failed ==> (s, i) in st.readBy)
    && (forall s, i :: (s, i) in st.ran ==> Runs(c, s, i) && Arrived(c, st.readBy, i) && (s, i) !in st.failed)
    && (forall s, i :: (s, i) in st.done && Runs(c, s, i) ==> (s, i) in st.ran)
  }

  /** Exactly the writers of the place before position `m` have released. */
  ghost predicate Frontier(c: Job, done: set<Part>, p: Place, m: nat) {
    forall j: nat, a :: Writes(c, j, a) && Lives(c, a, p) ==> ((p.0, j) in done <==> j < m)
  }

  /** Every place holds its serial value at its frontier. */
  ghost predicate RowsSerial(c: Job, working: Stores, done: set<Part>) {
    forall p: Place, m: nat :: m <= |c.block| && Frontier(c, done, p, m) ==> Peek(working, p) == Serial(c, m, p)
  }

  /** Every read result carries the values of the serial prefix. */
  ghost predicate ReadsSerial(c: Job, readBy: map<Part, Rows>) {
    forall s, i, k :: (s, i) in readBy && Reads(c, i, k) && At(c, k, s)
      ==> Look(readBy[(s, i)], k) == Serial(c, i, (s, Qualify(s, k)))
  }

  /** Every executed outcome is the serial one. */
  ghost predicate OutcomesSerial(c: Job, ran: map<Part, Outcome>) {
    forall s, i :: (s, i) in ran
      ==> i < |c.block| && ran[(s, i)] == OutcomeAt(c, Checked, i) && WithinDeclaration(c.block[i], ran[(s, i)])
  }

  ghost predicate Inv(c: Job, st: State) {
    && Ordered(c, st)
    && RowsSerial(c, st.working, st.done)
    && ReadsSerial(c, st.readBy)
    && OutcomesSerial(c, st.ran)
    && (st.failed != {} ==> !AllWithin(c, Checked, |c.block|))
  }

  // ---- What happened obeys the order ----

  ghost predicate Happened(st: State, e: Event) {
    match e
    case ReadAt(s, i) => (s, i) in st.readBy
    case RunAt(s, i) => (s, i) in st.ran
    case FreeAt(s, i) => (s, i) in st.done
  }

  lemma NeedsHappened(c: Job, st: State, e: Event, d: Event)
    requires Ordered(c, st) && Happened(st, e) && Needs(c, e, d)
    ensures Happened(st, d)
  {
    hide Clash; hide Participates; hide Reads; hide At;
    match e
    case ReadAt(s, i) => assert Granted(c, st.done, s, i);
    case RunAt(s, i) =>
      assert Arrived(c, st.readBy, i);
      ReaderArrived(c, st.readBy, i, d.shard);
    case FreeAt(s, i) =>
  }

  lemma ReaderArrived(c: Job, readBy: map<Part, Rows>, i: nat, t: Shard)
    requires Arrived(c, readBy, i)
    ensures (exists k :: Reads(c, i, k) && At(c, k, t)) ==> (t, i) in readBy
  {
    hide Reads;
    if k :| Reads(c, i, k) && At(c, k, t) {
    }
  }

  lemma {:induction false} PastHappened(c: Job, st: State, d: Event, e: Event)
    requires Ordered(c, st) && Happened(st, e) && Precedes(c, d, e)
    ensures Happened(st, d)
    decreases e.index, Stage(e)
  {
    hide Ordered; hide Happened; hide Needs;
    if Needs(c, e, d) {
      NeedsHappened(c, st, e, d);
    } else {
      var m :| Needs(c, e, m) && Precedes(c, d, m);
      NeedsHappened(c, st, e, m);
      NeedsDrop(c, e, m);
      PastHappened(c, st, d, m);
    }
  }

  lemma NeedsDrop(c: Job, e: Event, m: Event)
    requires Needs(c, e, m)
    ensures m.index < e.index || (m.index == e.index && Stage(m) < Stage(e))
  {
    hide Clash; hide Runs; hide Reads; hide At;
  }

  /** Everything before an event that can happen now has happened. */
  lemma ReadyPast(c: Job, st: State, d: Event, e: Event)
    requires Ordered(c, st) && (forall m :: Needs(c, e, m) ==> Happened(st, m)) && Precedes(c, d, e)
    ensures Happened(st, d)
  {
    hide Ordered; hide Happened; hide Needs;
    if !Needs(c, e, d) {
      var m :| Needs(c, e, m) && Precedes(c, d, m);
      PastHappened(c, st, d, m);
    }
  }

  // ---- Every step keeps the order ----

  lemma ReadOrdered(c: Job, st: State, st': State, s: Shard, i: nat)
    requires Ordered(c, st) && ReadStep(c, st, st', s, i)
    ensures Ordered(c, st')
  {
    hide Granted; hide Participates; hide Runs; hide Reads; hide ReadResult;
    forall t, j | (t, j) in st'.ran
      ensures Arrived(c, st'.readBy, j)
    {
      assert Arrived(c, st.readBy, j);
    }
  }

  lemma ExecuteOrdered(c: Job, st: State, st': State, s: Shard, i: nat, snap: Rows)
    requires Ordered(c, st) && ExecuteStep(c, st, st', s, i, snap)
    ensures Ordered(c, st')
  {
    hide Granted; hide Participates; hide Runs; hide Arrived; hide Snapshot; hide Execute; hide WithinDeclaration;
    assert (s, i) !in st.failed;
  }

  lemma FinishOrdered(c: Job, st: State, st': State, s: Shard, i: nat, after: Rows)
    requires Ordered(c, st) && FinishStep(c, st, st', s, i, after)
    ensures Ordered(c, st')
  {
    hide Clash; hide Participates; hide Runs; hide Arrived; hide Materialized; hide Produced;
    forall t, j | (t, j) in st'.readBy
      ensures Granted(c, st'.done, t, j)
    {
      assert Granted(c, st.done, t, j);
    }
    hide Granted;
  }

  lemma NextOrdered(c: Job, st: State, st': State)
    requires Ordered(c, st) && Next(c, st, st')
    ensures Ordered(c, st')
  {
    hide Ordered; hide ReadStep; hide ExecuteStep; hide FinishStep;
    if s, i: nat :| ReadStep(c, st, st', s, i) {
      ReadOrdered(c, st, st', s, i);
    } else if s, i: nat, snap :| ExecuteStep(c, st, st', s, i, snap) {
      ExecuteOrdered(c, st, st', s, i, snap);
    } else {
      var s, i: nat, after :| FinishStep(c, st, st', s, i, after);
      FinishOrdered(c, st, st', s, i, after);
    }
  }

  lemma {:induction false} RunOrdered(c: Job, run: seq<State>)
    requires IsRun(c, run)
    ensures Ordered(c, Last(run))
  {
    hide Next; hide Ordered;
    if |run| == 1 {
      assert Ordered(c, Init(c)) by { InitOrdered(c); }
    } else {
      var n := |run| - 1;
      assert IsRun(c, run[..n]);
      RunOrdered(c, run[..n]);
      assert Next(c, run[n - 1], run[n - 1 + 1]);
      NextOrdered(c, run[n - 1], run[n]);
    }
  }

  lemma InitOrdered(c: Job)
    ensures Ordered(c, Init(c))
  {
  }

  // ---- Every step keeps the serial values ----

  /** When a transaction may read a row, exactly the earlier writers of the row have released. */
  lemma ReadsAtItsPlace(c: Job, st: State, s: Shard, i: nat, k: Key)
    requires Ordered(c, st) && RowsOrdered(c) && Granted(c, st.done, s, i) && (s, i) !in st.readBy && Reads(c, i, k)
    requires At(c, k, s)
    ensures Frontier(c, st.done, (s, Qualify(s, k)), i)
  {
    hide Precedes; hide Qualify; hide DeclaredReads; hide DeclaredWrites;
    var p: Place := (s, Qualify(s, k));
    assert Declares(c, i, k) && Lives(c, k, p);
    forall j: nat, a | Writes(c, j, a) && Lives(c, a, p)
      ensures (s, j) in st.done <==> j < i
    {
      hide Ordered; hide Clash;
      assert Declares(c, j, a);
      if j < i {
        assert InOrder(c, s, j, a, i, k);
        GrantedReady(c, st, s, i);
        ReadyPast(c, st, FreeAt(s, j), ReadAt(s, i));
      } else if (s, j) in st.done {
        DoneRead(c, st, s, j);
        if i < j {
          assert InOrder(c, s, i, k, j, a);
          PastHappened(c, st, ReadAt(s, i), FreeAt(s, j));
        }
      }
    }
  }

  lemma GrantedReady(c: Job, st: State, s: Shard, i: nat)
    requires Granted(c, st.done, s, i)
    ensures forall m :: Needs(c, ReadAt(s, i), m) ==> Happened(st, m)
  {
    hide Clash;
  }

  lemma DoneRead(c: Job, st: State, s: Shard, j: nat)
    requires Ordered(c, st) && (s, j) in st.done
    ensures (s, j) in st.readBy
  {
  }

  /** When a transaction may store and release, exactly the earlier writers of every row it
      writes have released. */
  lemma WritesAtItsPlace(c: Job, st: State, s: Shard, i: nat, k: Key, p: Place)
    requires Ordered(c, st) && RowsOrdered(c) && (s, i) in st.readBy && (s, i) !in st.done
    requires (Runs(c, s, i) ==> (s, i) in st.ran)
    requires Writes(c, i, k) && Lives(c, k, p) && p.0 == s
    ensures Frontier(c, st.done, p, i)
  {
    hide Precedes; hide Lives; hide DeclaredReads; hide DeclaredWrites; hide Ordered;
    assert Declares(c, i, k);
    forall j: nat, a | Writes(c, j, a) && Lives(c, a, p)
      ensures (s, j) in st.done <==> j < i
    {
      assert Declares(c, j, a);
      if j < i {
        assert InOrder(c, s, j, a, i, k);
        FreeReady(c, st, s, i);
        ReadyPast(c, st, FreeAt(s, j), FreeAt(s, i));
      } else if (s, j) in st.done && i < j {
        assert InOrder(c, s, i, k, j, a);
        PastHappened(c, st, FreeAt(s, i), FreeAt(s, j));
      }
    }
  }

  lemma FreeReady(c: Job, st: State, s: Shard, i: nat)
    requires (s, i) in st.readBy && (Runs(c, s, i) ==> (s, i) in st.ran)
    ensures forall m :: Needs(c, FreeAt(s, i), m) ==> Happened(st, m)
  {
    hide Runs;
  }

  lemma InitRows(c: Job)
    ensures RowsSerial(c, c.bases, {})
  {
    hide ValueAt; hide DeclaredWrites; hide Lives; hide Peek;
    forall p: Place, m: nat | m <= |c.block| && Frontier(c, {}, p, m)
      ensures Peek(c.bases, p) == Serial(c, m, p)
    {
      forall j: nat, k | 0 <= j < m && Writes(c, j, k)
        ensures !Lives(c, k, p)
      {
      }
      Untouched(c, Checked, 0, m, p);
      StartValue(c, Checked, p);
    }
  }

  lemma InitHolds(c: Job)
    ensures Inv(c, Init(c))
  {
    InitRows(c);
    InitOrdered(c);
    hide RowsSerial; hide Ordered;
  }

  lemma ReadKeeps(c: Job, st: State, st': State, s: Shard, i: nat)
    requires Inv(c, st) && RowsOrdered(c) && ReadStep(c, st, st', s, i)
    ensures Inv(c, st')
  {
    hide ValueAt; hide DeclaredReads; hide DeclaredWrites; hide RowsOrdered; hide Qualify; hide Peek; hide Frontier;
    hide Granted;
    ReadOrdered(c, st, st', s, i);
    forall k | Reads(c, i, k) && At(c, k, s)
      ensures Look(st'.readBy[(s, i)], k) == Serial(c, i, (s, Qualify(s, k)))
    {
      ReadsAtItsPlace(c, st, s, i, k);
    }
    hide RowsSerial; hide OutcomesSerial; hide Participates; hide Ordered; hide AllWithin;
  }

  lemma MergedIsSerial(c: Job, readBy: map<Part, Rows>, i: nat, a: Key)
    requires ReadsSerial(c, readBy) && Arrived(c, readBy, i) && Reads(c, i, a)
    ensures a in c.home && i < |c.block| && Merged(c, readBy, a, i) == Serial(c, i, Where(c, a))
  {
    hide ValueAt; hide DeclaredReads; hide Look; hide Qualify;
    assert At(c, a, c.home[a]);
  }

  lemma SameRow(c: Job, s: Shard, i: nat, a: Key, k: Key)
    requires ReadsApart(c) && Runs(c, s, i) && Reads(c, i, a) && Reads(c, i, k) && Qualify(s, a) == Qualify(s, k)
    requires a in c.home && k in c.home
    ensures Where(c, a) == Where(c, k)
  {
    hide Runs; hide Reads; hide Qualify;
  }

  /** What a shard executes on shows the serial prefix for every declared read. */
  lemma ViewIsSerial(c: Job, st: State, s: Shard, i: nat, snap: Rows, k: Key)
    requires ReadsSerial(c, st.readBy) && ReadsApart(c) && Runs(c, s, i) && Snapshot(c, st, s, i, snap)
    requires Arrived(c, st.readBy, i)
    requires Reads(c, i, k)
    ensures k in c.home && i < |c.block| && Look(snap, Qualify(s, k)) == Serial(c, i, Where(c, k))
  {
    MergedIsSerial(c, st.readBy, i, k);
    assert Shows(c, st.readBy, s, i, snap, k);
    hide ReadsSerial; hide ReadsApart; hide Runs; hide Snapshot; hide Arrived; hide Reads; hide Look; hide Qualify;
    hide Serial; hide Where; hide Merged;
    var a :| Reads(c, i, a) && Qualify(s, a) == Qualify(s, k)
      && Look(snap, Qualify(s, k)) == Merged(c, st.readBy, a, i);
    MergedIsSerial(c, st.readBy, i, a);
    SameRow(c, s, i, a, k);
  }

  /** An executing shard passes or fails the access check as the serial run does, and then
      has the serial outcome. */
  lemma RanIsSerial(c: Job, st: State, s: Shard, i: nat, snap: Rows)
    requires ReadsSerial(c, st.readBy) && ReadsApart(c) && Runs(c, s, i) && Snapshot(c, st, s, i, snap)
    requires Arrived(c, st.readBy, i)
    ensures i < |c.block|
    ensures var o, o' := Execute(c.block[i], snap, Some(s)), OutcomeAt(c, Checked, i);
            && (WithinDeclaration(c.block[i], o) <==> WithinDeclaration(c.block[i], o'))
            && (WithinDeclaration(c.block[i], o) ==> o == o')
  {
    assert i < |c.block|;
    hide ValueAt; hide ViewAt; hide Execute; hide ReadsApart; hide ReadsSerial; hide Snapshot; hide WithinDeclaration;
    hide Arrived; hide Runs;
    var before := ViewAt(c, Checked, i);
    forall k | k in DeclaredReads(c.block[i])
      ensures Look(snap, Row(Some(s), k)) == Look(before, Row(None, k))
    {
      assert Reads(c, i, k);
      ViewIsSerial(c, st, s, i, snap, k);
      ViewShows(c, Checked, i, k);
    }
    ExecuteAgrees(c.block[i], snap, Some(s), before, None);
  }

  /** What an executing step does to the state. */
  lemma ExecuteChanges(c: Job, st: State, st': State, s: Shard, i: nat, snap: Rows)
    requires ExecuteStep(c, st, st', s, i, snap)
    ensures i < |c.block| && Runs(c, s, i) && Snapshot(c, st, s, i, snap) && Arrived(c, st.readBy, i)
    ensures st'.working == st.working && st'.readBy == st.readBy && st'.done == st.done && (s, i) !in st.ran
    ensures (s, i) !in st.failed
    ensures var o := Execute(c.block[i], snap, Some(s));
            if WithinDeclaration(c.block[i], o) then st'.ran == st.ran[(s, i) := o] && st'.failed == st.failed
            else st'.ran == st.ran && st'.failed == st.failed + {(s, i)}
  {
    hide Snapshot; hide Arrived; hide Execute; hide WithinDeclaration;
    assert (s, i) !in st.failed;
  }

  lemma OutcomesGrow(c: Job, ran: map<Part, Outcome>, s: Shard, i: nat, o: Outcome)
    requires OutcomesSerial(c, ran) && i < |c.block| && o == OutcomeAt(c, Checked, i)
    requires WithinDeclaration(c.block[i], o)
    ensures OutcomesSerial(c, ran[(s, i) := o])
  {
    hide OutcomeAt; hide WithinDeclaration;
  }

  lemma NotAllWithin(c: Job, i: nat)
    requires i < |c.block| && !WithinDeclaration(c.block[i], OutcomeAt(c, Checked, i))
    ensures !AllWithin(c, Checked, |c.block|)
  {
  }

  lemma ExecuteKeeps(c: Job, st: State, st': State, s: Shard, i: nat, snap: Rows)
    requires Inv(c, st) && ReadsApart(c) && ExecuteStep(c, st, st', s, i, snap)
    ensures Inv(c, st')
  {
    hide OutcomeAt; hide Execute; hide RowsSerial; hide ReadsSerial; hide OutcomesSerial; hide ReadsApart;
    hide Snapshot; hide WithinDeclaration; hide Ordered; hide Runs; hide Arrived; hide ExecuteStep; hide AllWithin;
    ExecuteOrdered(c, st, st', s, i, snap);
    ExecuteChanges(c, st, st', s, i, snap);
    RanIsSerial(c, st, s, i, snap);
    var o := Execute(c.block[i], snap, Some(s));
    if WithinDeclaration(c.block[i], o) {
      OutcomesGrow(c, st.ran, s, i, o);
    } else {
      NotAllWithin(c, i);
    }
  }

  lemma WrittenHere(c: Job, s: Shard, i: nat, writes: Rows, after: Rows, p: Place, k: Key)
    requires WritesApart(c) && Holds(c, s, writes, after, k) && p.0 == s && k in writes && Lives(c, k, p)
    requires forall a :: a in writes ==> Writes(c, i, a)
    ensures Look(after, p.1) == writes[k] && ComesLast(c, writes, p, k)
  {
    hide Writes; hide Qualify; hide Look;
    var a :| a in writes && At(c, a, s) && Qualify(s, a) == Qualify(s, k) && Look(after, Qualify(s, k)) == writes[a];
    assert Lives(c, a, p) && Writes(c, i, a) && Writes(c, i, k);
    hide Lives;
  }

  /** A stored write set leaves at every place what the serial run stores there. */
  lemma StoredExactly(c: Job, s: Shard, i: nat, writes: Rows, before: Rows, after: Rows, p: Place)
    requires WritesApart(c) && Materialized(c, s, writes, before, after) && p.0 == s
    requires forall a :: a in writes ==> Writes(c, i, a)
    ensures Look(after, p.1) == Stored(c, writes, p, Look(before, p.1))
  {
    hide Writes; hide WritesApart; hide Qualify; hide Look; hide Stored; hide Holds; hide ComesLast;
    if k :| k in writes && Lives(c, k, p) {
      assert At(c, k, s);
      WrittenHere(c, s, i, writes, after, p, k);
      StoredLast(c, writes, p, k, Look(before, p.1));
    } else {
      StoredNone(c, writes, p, Look(before, p.1));
      forall a | a in writes && At(c, a, s)
        ensures Qualify(s, a) != p.1
      {
        assert !Lives(c, a, p);
      }
    }
  }

  /** Releasing a transaction moves the frontier of each place it declares a write to from its
      own position to just behind it. */
  lemma FrontierMoves(c: Job, done: set<Part>, i: nat, k: Key, p: Place, m: nat)
    requires Frontier(c, done, p, i) && Writes(c, i, k) && Lives(c, k, p) && (p.0, i) !in done
    requires m <= |c.block| && Frontier(c, done + {(p.0, i)}, p, m)
    ensures i < m
    ensures forall j: nat, a :: i < j < m && Writes(c, j, a) ==> !Lives(c, a, p)
  {
    hide DeclaredWrites; hide Lives;
    assert (p.0, i) in done + {(p.0, i)};
    forall j: nat, a | i < j < m && Writes(c, j, a)
      ensures !Lives(c, a, p)
    {
      assert Lives(c, a, p) ==> (p.0, j) in done + {(p.0, i)};
    }
  }

  lemma ProducedIsEffect(c: Job, st: State, s: Shard, i: nat, p: Place, prior: Value)
    requires OutcomesSerial(c, st.ran) && i < |c.block| == |c.seat| && (Runs(c, s, i) ==> (s, i) in st.ran) && p.0 == s
    ensures Stored(c, Produced(c, st, s, i), p, prior) == Stored(c,
        Effect(c.block[i], OutcomeAt(c, Checked, i), Checked), p, prior)
    ensures forall a :: a in Produced(c, st, s, i) ==> Writes(c, i, a)
  {
    hide OutcomeAt; hide DeclaredReads; hide DeclaredWrites; hide Qualify; hide Stored;
    if Runs(c, s, i) {
      var o := st.ran[(s, i)];
      assert forall a :: a in o.writes ==> a in o.writes.Keys;
    } else {
      var w := Effect(c.block[i], OutcomeAt(c, Checked, i), Checked);
      forall a | a in w
        ensures !Lives(c, a, p)
      {
        assert a in w.Keys;
        assert Writes(c, i, a);
      }
      StoredNone(c, w, p, prior);
      StoredNone(c, map[], p, prior);
    }
  }

  lemma FinishPlace(c: Job, st: State, s: Shard, i: nat, after: Rows, p: Place, m: nat)
    requires Inv(c, st) && RowsOrdered(c) && WritesApart(c) && |c.seat| == |c.block|
    requires (s, i) in st.readBy && (s, i) !in st.done && (Runs(c, s, i) ==> (s, i) in st.ran)
    requires Materialized(c, s, Produced(c, st, s, i), RowsAt(st.working, s), after)
    requires p.0 == s && m <= |c.block| && Frontier(c, st.done + {(s, i)}, p, m)
    ensures Look(after, p.1) == Serial(c, m, p)
  {
    hide DeclaredReads; hide DeclaredWrites; hide ValueAt; hide OutcomeAt; hide RowsOrdered; hide WritesApart;
    hide Materialized; hide Lives; hide Stored; hide Look; hide Produced; hide ReadsSerial; hide Runs;
    assert i < |c.block|;
    var prior := Peek(st.working, p);
    ProducedIsEffect(c, st, s, i, p, prior);
    StoredExactly(c, s, i, Produced(c, st, s, i), RowsAt(st.working, s), after, p);
    hide OutcomesSerial;
    if k :| Writes(c, i, k) && Lives(c, k, p) {
      WritesAtItsPlace(c, st, s, i, k, p);
      FrontierMoves(c, st.done, i, k, p, m);
      ValueStep(c, Checked, i, p);
      Untouched(c, Checked, i + 1, m, p);
    } else {
      assert Frontier(c, st.done, p, m);
      var w := Effect(c.block[i], OutcomeAt(c, Checked, i), Checked);
      forall a | a in w
        ensures !Lives(c, a, p)
      {
        assert a in w.Keys;
        assert Writes(c, i, a);
      }
      StoredNone(c, w, p, prior);
    }
  }

  lemma FinishKeeps(c: Job, st: State, st': State, s: Shard, i: nat, after: Rows)
    requires Inv(c, st) && RowsOrdered(c) && WritesApart(c) && |c.seat| == |c.block|
    requires FinishStep(c, st, st', s, i, after)
    ensures Inv(c, st')
  {
    FinishOrdered(c, st, st', s, i, after);
    hide DeclaredReads; hide DeclaredWrites; hide ValueAt; hide RowsOrdered; hide WritesApart; hide Materialized;
    hide Look; hide Lives; hide Ordered; hide OutcomesSerial; hide ReadsSerial; hide AllWithin; hide Produced;
    hide Runs;
    forall p: Place, m: nat | m <= |c.block| && Frontier(c, st'.done, p, m)
      ensures Peek(st'.working, p) == Serial(c, m, p)
    {
      if p.0 == s {
        FinishPlace(c, st, s, i, after, p, m);
      } else {
        assert Frontier(c, st.done, p, m);
      }
    }
    hide RowsSerial;
  }

  lemma NextKeeps(c: Job, st: State, st': State)
    requires Inv(c, st) && Orderly(c) && WellFormed(c) && Next(c, st, st')
    ensures Inv(c, st')
  {
    hide Inv; hide RowsOrdered; hide WritesApart; hide ReadsApart; hide ReadStep; hide ExecuteStep; hide FinishStep;
    if s, i: nat :| ReadStep(c, st, st', s, i) {
      ReadKeeps(c, st, st', s, i);
    } else if s, i: nat, snap :| ExecuteStep(c, st, st', s, i, snap) {
      ExecuteKeeps(c, st, st', s, i, snap);
    } else {
      var s, i: nat, after :| FinishStep(c, st, st', s, i, after);
      FinishKeeps(c, st, st', s, i, after);
    }
  }

  lemma {:induction false} RunKeeps(c: Job, run: seq<State>)
    requires WellFormed(c) && Orderly(c) && IsRun(c, run)
    ensures Inv(c, Last(run))
  {
    hide Inv; hide Next; hide WellFormed; hide Orderly;
    if |run| == 1 {
      InitHolds(c);
    } else {
      var n := |run| - 1;
      assert IsRun(c, run[..n]);
      RunKeeps(c, run[..n]);
      assert Next(c, run[n - 1], run[n - 1 + 1]);
      NextKeeps(c, run[n - 1], run[n]);
    }
  }

  // ---- The theorems ----

  /** Every shard has released every transaction it takes part in. */
  ghost predicate Finished(c: Job, st: State) {
    st.failed == {} && forall s, i: nat :: Participates(c, s, i) ==> (s, i) in st.done
  }

  /** Some shard executes each transaction, so there is one to publish its outcome. */
  lemma SomeoneExecutes(c: Job, i: nat) returns (s: Shard)
    requires WellFormed(c) && i < |c.block|
    ensures Runs(c, s, i) && Participates(c, s, i)
  {
    hide DeclaredReads; hide DeclaredWrites; hide Canonical;
    if DeclaredWrites(c.block[i]) == {} {
      s := c.seat[i];
      var k :| Reads(c, i, k) && At(c, k, c.seat[i]);
      assert Declares(c, i, k);
    } else {
      var k :| k in DeclaredWrites(c.block[i]);
      assert Writes(c, i, k) && Declares(c, i, k);
      s := c.home[k];
      assert At(c, k, s);
    }
  }

  lemma FinishedIsValid(c: Job, st: State)
    requires WellFormed(c) && Inv(c, st) && Finished(c, st)
    ensures AllWithin(c, Unchecked, |c.block|)
  {
    forall i | 0 <= i < |c.block|
      ensures WithinDeclaration(c.block[i], OutcomeAt(c, Checked, i))
    {
      hide RowsSerial; hide ReadsSerial; hide WithinDeclaration; hide OutcomeAt; hide Granted; hide WellFormed;
      hide Runs; hide Arrived;
      var s := SomeoneExecutes(c, i);
      assert (s, i) in st.done;
      assert (s, i) in st.ran;
    }
    CheckedRejectsLikePlain(c);
  }

  /** Every row of every shard and every executed outcome is the serial one. */
  ghost predicate EndsSerial(c: Job, st: State) {
    && (forall p: Place :: Peek(st.working, p) == ValueAt(c, Unchecked, |c.block|, p))
    && (forall s, i :: (s, i) in st.ran ==> i < |c.block| && st.ran[(s, i)] == OutcomeAt(c, Unchecked, i))
  }

  /** Serial equivalence: a run that finishes everywhere leaves every row of every shard with
      the value the serial run leaves, and every executing shard with its receipt and writes. */
  lemma SerialEquivalence(c: Job, run: seq<State>)
    requires WellFormed(c) && Orderly(c) && IsRun(c, run) && Finished(c, Last(run))
    ensures EndsSerial(c, Last(run)) && AllWithin(c, Unchecked, |c.block|)
    ensures forall s, i: nat :: Runs(c, s, i) && Participates(c, s, i) ==> (s, i) in Last(run).ran
  {
    var st := Last(run);
    RunKeeps(c, run);
    FinishedIsValid(c, st);
    CheckedIsPlain(c, |c.block|);
    hide ValueAt; hide OutcomeAt; hide DeclaredReads; hide DeclaredWrites; hide WellFormed; hide Orderly; hide IsRun;
    hide Runs; hide ReadsSerial; hide Lives; hide Peek;
    forall p: Place
      ensures Peek(st.working, p) == ValueAt(c, Unchecked, |c.block|, p)
    {
      FrontierAtEnd(c, st, p);
    }
    forall s, i | (s, i) in st.ran
      ensures i < |c.block| && st.ran[(s, i)] == OutcomeAt(c, Unchecked, i)
    {
      SameOutcomes(c, i);
    }
  }

  lemma SameOutcomes(c: Job, i: nat)
    requires i < |c.block| && AllWithin(c, Unchecked, |c.block|)
    ensures OutcomeAt(c, Checked, i) == OutcomeAt(c, Unchecked, i)
  {
    hide ViewAt; hide Execute; hide WithinDeclaration;
    CheckedIsPlain(c, i);
  }

  lemma FrontierAtEnd(c: Job, st: State, p: Place)
    requires Finished(c, st)
    ensures Frontier(c, st.done, p, |c.block|)
  {
    forall j: nat, a | Writes(c, j, a) && Lives(c, a, p)
      ensures (p.0, j) in st.done
    {
      assert Declares(c, j, a) && At(c, a, p.0);
      assert Participates(c, p.0, j);
    }
  }

  /** What the receipt of an outcome says, without the delta. */
  datatype Verdict = Verdict(success: bool, error: Value)

  function VerdictOf(o: Outcome): Verdict {
    Verdict(o.success, o.error)
  }

  /** The outcome exchange after the dispatch loop: the outcome home publishes what it has, a shard
      that executed the transaction compares, and every shard adopts what was published. Without a
      published outcome, and on a difference, there is none. */
  function Exchanged(st: State, publisher: Shard, s: Shard, i: nat): Option<Verdict> {
    if (publisher, i) !in st.ran then None
    else if (s, i) in st.ran && VerdictOf(st.ran[(s, i)]) != VerdictOf(st.ran[(publisher, i)]) then None
    else Some(VerdictOf(st.ran[(publisher, i)]))
  }

  /** In any state, reachable or not, a shard adopts a verdict exactly if the publisher has one and
      whoever of the two executed the transaction has this one. */
  lemma AdoptsExactly(st: State, publisher: Shard, s: Shard, i: nat, v: Verdict)
    ensures Exchanged(st, publisher, s, i) == Some(v) <==>
      && (publisher, i) in st.ran
      && forall x :: x in [publisher, s] && (x, i) in st.ran ==> VerdictOf(st.ran[(x, i)]) == v
  {
    assert publisher in [publisher, s] && s in [publisher, s];
  }

  lemma RunnerTakesPart(c: Job, s: Shard, i: nat)
    requires WellFormed(c) && Runs(c, s, i)
    ensures Participates(c, s, i)
  {
    hide Sound; hide DeclaredReads; hide DeclaredWrites;
    if DeclaredWrites(c.block[i]) == {} {
      var k :| Reads(c, i, k) && At(c, k, c.seat[i]);
      assert Declares(c, i, k);
    } else {
      var k :| Writes(c, i, k) && At(c, k, s);
      assert Declares(c, i, k);
    }
  }

  /** After a finished run every shard, executing or not, gets the serial receipt of every
      transaction, whichever executing shard is its outcome home. */
  lemma EveryReceiptIsSerial(c: Job, run: seq<State>, i: nat, publisher: Shard, s: Shard)
    requires WellFormed(c) && Orderly(c) && IsRun(c, run) && Finished(c, Last(run))
    requires i < |c.block| && Runs(c, publisher, i)
    ensures Exchanged(Last(run), publisher, s, i) == Some(VerdictOf(OutcomeAt(c, Unchecked, i)))
  {
    RunnerTakesPart(c, publisher, i);
    hide WellFormed; hide Orderly; hide IsRun; hide Finished; hide OutcomeAt; hide ValueAt; hide Runs;
    hide Participates;
    SerialEquivalence(c, run);
  }

  /** A run reports an access violation only if the serial run has one. */
  lemma FailureIsSerial(c: Job, run: seq<State>)
    requires WellFormed(c) && Orderly(c) && IsRun(c, run) && Last(run).failed != {}
    ensures !AllWithin(c, Unchecked, |c.block|)
  {
    RunKeeps(c, run);
    CheckedRejectsLikePlain(c);
  }

  // ---- Progress ----

  ghost predicate Open(c: Job, st: State, i: nat) {
    exists s :: Participates(c, s, i) && (s, i) !in st.done
  }

  lemma {:induction false} LowestOpen(c: Job, st: State, some: nat) returns (i: nat)
    requires Open(c, st, some)
    ensures Open(c, st, i) && forall j: nat :: j < i ==> !Open(c, st, j)
  {
    hide Open;
    if j: nat :| j < some && Open(c, st, j) {
      i := LowestOpen(c, st, j);
    } else {
      i := some;
    }
  }

  /** The lowest transaction that some shard has not released is granted at every shard. */
  lemma LowestIsGranted(c: Job, st: State, i: nat, s: Shard)
    requires forall j: nat :: j < i ==> !Open(c, st, j)
    ensures Granted(c, st.done, s, i)
  {
    forall j: nat, k | j < i && Declares(c, j, k) && At(c, k, s)
      ensures (s, j) in st.done
    {
      assert Participates(c, s, j);
      assert !Open(c, st, j);
    }
  }

  ghost function Shown(c: Job, st: State, s: Shard, i: nat, r: Key): Value {
    if a :| Reads(c, i, a) && Qualify(s, a) == r then Merged(c, st.readBy, a, i) else Peek(st.working, (s, r))
  }

  /** There is always a row image to execute on. */
  lemma SnapshotExists(c: Job, st: State, s: Shard, i: nat) returns (snap: Rows)
    requires i < |c.block|
    ensures Snapshot(c, st, s, i, snap)
  {
    snap := map r | r in (set k | k in DeclaredKeys(c.block[i]) :: Qualify(s, k)) :: Shown(c, st, s, i, r);
    hide DeclaredReads; hide DeclaredWrites; hide Qualify; hide Merged;
    forall k | Declares(c, i, k)
      ensures Look(snap, Qualify(s, k)) == Shown(c, st, s, i, Qualify(s, k))
    {
    }
    forall k | Reads(c, i, k)
      ensures Shows(c, st.readBy, s, i, snap, k)
    {
      assert Declares(c, i, k);
    }
  }

  ghost function Kept(c: Job, s: Shard, writes: Rows, before: Rows, r: Key): Value {
    if a :| a in writes && At(c, a, s) && Qualify(s, a) == r then writes[a] else Look(before, r)
  }

  lemma StoreExists(c: Job, s: Shard, writes: Rows, before: Rows) returns (after: Rows)
    ensures Materialized(c, s, writes, before, after)
  {
    after := map r | r in before.Keys + (set k | k in writes && At(c, k, s) :: Qualify(s, k)) ::
      Kept(c, s, writes, before, r);
    hide Qualify;
    forall r
      ensures Look(after, r) == Kept(c, s, writes, before, r)
    {
    }
    forall k | k in writes && At(c, k, s)
      ensures Holds(c, s, writes, after, k)
    {
    }
  }

  /** The event can happen: whatever it needs has happened, it has not, and its shard goes on. */
  ghost predicate Ready(c: Job, st: State, e: Event) {
    && st.failed == {} && !Happened(st, e) && e.index < |c.block| && Participates(c, e.shard, e.index)
      && (e.RunAt? ==> Runs(c, e.shard, e.index))
    && forall m :: Needs(c, e, m) ==> Happened(st, m)
  }

  /** A run fails the access check, or else the event happens and nothing else does. */
  ghost predicate Performed(c: Job, st: State, st': State, e: Event) {
    Next(c, st, st') && (st'.failed != {} || forall d :: Happened(st', d) <==> Happened(st, d) || d == e)
  }

  lemma PerformRead(c: Job, st: State, s: Shard, i: nat) returns (st': State)
    requires Ready(c, st, ReadAt(s, i))
    ensures Performed(c, st, st', ReadAt(s, i))
  {
    hide Clash; hide Participates;
    st' := st.(readBy := st.readBy[(s, i) := ReadResult(c, st, s, i)]);
    forall j: nat | j < i && Clash(c, s, j, i)
      ensures (s, j) in st.done
    {
      assert Needs(c, ReadAt(s, i), FreeAt(s, j));
      assert Happened(st, FreeAt(s, j));
    }
    assert ReadStep(c, st, st', s, i);
  }

  /** A run with this row image. */
  lemma PerformRun(c: Job, st: State, s: Shard, i: nat, snap: Rows) returns (st': State)
    requires WellFormed(c) && Ordered(c, st) && Ready(c, st, RunAt(s, i)) && Snapshot(c, st, s, i, snap)
    ensures Performed(c, st, st', RunAt(s, i))
    ensures st'.failed == {} ==> (s, i) in st'.ran && st'.ran[(s, i)] == Execute(c.block[i], snap, Some(s))
  {
    hide DeclaredReads; hide DeclaredWrites; hide Snapshot; hide Execute; hide WithinDeclaration; hide Canonical;
    hide Granted; hide Participates;
    var o := Execute(c.block[i], snap, Some(s));
    st' := if WithinDeclaration(c.block[i], o) then st.(ran := st.ran[(s, i) := o])
      else st.(failed := st.failed + {(s, i)});
    assert Needs(c, RunAt(s, i), ReadAt(s, i));
    assert Happened(st, ReadAt(s, i));
    forall k | Reads(c, i, k)
      ensures k in c.home && (c.home[k], i) in st.readBy
    {
      assert Declares(c, i, k) && At(c, k, c.home[k]);
      assert Needs(c, RunAt(s, i), ReadAt(c.home[k], i));
      assert Happened(st, ReadAt(c.home[k], i));
    }
    assert Arrived(c, st.readBy, i);
    hide Arrived; hide Runs;
    assert ExecuteStep(c, st, st', s, i, snap);
  }

  /** A release with these rows stored. */
  lemma PerformFree(c: Job, st: State, s: Shard, i: nat, after: Rows) returns (st': State)
    requires Ready(c, st, FreeAt(s, i)) && Materialized(c, s, Produced(c, st, s, i), RowsAt(st.working, s), after)
    ensures Performed(c, st, st', FreeAt(s, i))
    ensures st' == st.(working := st.working[s := after], done := st.done + {(s, i)})
  {
    hide Materialized; hide Produced; hide Runs; hide Participates;
    st' := st.(working := st.working[s := after], done := st.done + {(s, i)});
    assert Needs(c, FreeAt(s, i), ReadAt(s, i));
    assert Happened(st, ReadAt(s, i));
    if Runs(c, s, i) {
      assert Needs(c, FreeAt(s, i), RunAt(s, i));
      assert Happened(st, RunAt(s, i));
    }
    assert FinishStep(c, st, st', s, i, after);
  }

  lemma Perform(c: Job, st: State, e: Event) returns (st': State)
    requires WellFormed(c) && Ordered(c, st) && Ready(c, st, e)
    ensures Performed(c, st, st', e)
  {
    hide WellFormed; hide Ordered; hide Ready; hide Performed; hide Snapshot; hide Materialized;
    assert e.index < |c.block| by { ReadyInBlock(c, st, e); }
    match e
    case ReadAt(s, i) =>
      st' := PerformRead(c, st, s, i);
    case RunAt(s, i) =>
      var snap := SnapshotExists(c, st, s, i);
      st' := PerformRun(c, st, s, i, snap);
    case FreeAt(s, i) =>
      var after := StoreExists(c, s, Produced(c, st, s, i), RowsAt(st.working, s));
      st' := PerformFree(c, st, s, i, after);
  }

  lemma ReadyInBlock(c: Job, st: State, e: Event)
    requires Ready(c, st, e)
    ensures e.index < |c.block|
  {
  }

  /** While some shard has not released some transaction and nothing has failed, an event can
      happen. */
  lemma SomethingReady(c: Job, st: State) returns (e: Event)
    requires WellFormed(c) && Ordered(c, st) && st.failed == {} && !Finished(c, st)
    ensures Ready(c, st, e)
  {
    hide WellFormed; hide DeclaredReads; hide DeclaredWrites; hide Ordered;
    var z, some: nat :| Participates(c, z, some) && (z, some) !in st.done;
    assert Open(c, st, some);
    var i := LowestOpen(c, st, some);
    var s :| Participates(c, s, i) && (s, i) !in st.done;
    assert i < |c.block|;
    if t :| Participates(c, t, i) && (t, i) !in st.readBy {
      LowestIsGranted(c, st, i, t);
      GrantedReady(c, st, t, i);
      e := ReadAt(t, i);
    } else if Runs(c, s, i) && (s, i) !in st.ran {
      e := RunAt(s, i);
      hide Runs;
      forall m | Needs(c, e, m)
        ensures Happened(st, m)
      {
        ReaderTakesPart(c, i, m.shard);
      }
    } else {
      e := FreeAt(s, i);
      FreeReady(c, st, s, i);
    }
  }

  lemma ReaderTakesPart(c: Job, i: nat, t: Shard)
    ensures (exists k :: Reads(c, i, k) && At(c, k, t)) ==> Participates(c, t, i)
  {
    if k :| Reads(c, i, k) && At(c, k, t) {
      assert Declares(c, i, k);
    }
  }

  /** Deadlock freedom across shards: while some shard has not released some transaction and
      nothing has failed, a step is possible. */
  lemma NotStuck(c: Job, st: State)
    requires WellFormed(c) && Ordered(c, st) && st.failed == {} && !Finished(c, st)
    ensures exists st' :: Next(c, st, st')
  {
    hide WellFormed; hide Ordered; hide Finished; hide Next; hide Ready; hide Happened;
    var e := SomethingReady(c, st);
    var st' := Perform(c, st, e);
  }

  // ---- Termination ----

  ghost function Parts(c: Job): set<Part> {
    set i: nat, k | i < |c.block| && k in DeclaredKeys(c.block[i]) && k in c.home :: (c.home[k], i)
  }

  ghost function Work(st: State): nat {
    |st.readBy.Keys| + |st.ran.Keys + st.failed| + |st.done|
  }

  lemma WorkBounded(c: Job, st: State)
    requires Ordered(c, st)
    ensures Work(st) <= 3 * |Parts(c)|
  {
    hide Granted; hide DeclaredReads; hide DeclaredWrites; hide Arrived; hide Runs;
    forall p: Part | p in st.readBy.Keys
      ensures p in Parts(c)
    {
      assert (p.0, p.1) in st.readBy;
      var k :| Declares(c, p.1, k) && At(c, k, p.0);
    }
    forall p: Part | p in st.ran.Keys + st.failed + st.done
      ensures p in st.readBy.Keys
    {
      assert (p.0, p.1) in st.ran || (p.0, p.1) in st.failed || (p.0, p.1) in st.done;
    }
    Smaller(st.readBy.Keys, Parts(c));
    Smaller(st.ran.Keys + st.failed, Parts(c));
    Smaller(st.done, Parts(c));
  }

  lemma ReadWorks(c: Job, st: State, st': State, s: Shard, i: nat)
    requires ReadStep(c, st, st', s, i)
    ensures Work(st') == Work(st) + 1
  {
    hide Participates; hide Granted; hide ReadResult; hide Stopped;
    assert st'.readBy.Keys == st.readBy.Keys + {(s, i)};
  }

  lemma OneMore(ran: map<Part, Outcome>, failed: set<Part>, part: Part, o: Outcome)
    requires part !in ran && part !in failed
    ensures |ran[part := o].Keys + failed| == |ran.Keys + failed| + 1 == |ran.Keys + (failed + {part})|
  {
    assert ran[part := o].Keys + failed == ran.Keys + failed + {part} == ran.Keys + (failed + {part});
  }

  lemma ExecuteWorks(c: Job, st: State, st': State, s: Shard, i: nat, snap: Rows)
    requires ExecuteStep(c, st, st', s, i, snap)
    ensures Work(st') == Work(st) + 1
  {
    hide ExecuteStep; hide Snapshot; hide Arrived; hide Runs; hide Execute; hide WithinDeclaration;
    ExecuteChanges(c, st, st', s, i, snap);
    OneMore(st.ran, st.failed, (s, i), Execute(c.block[i], snap, Some(s)));
  }

  lemma FinishWorks(c: Job, st: State, st': State, s: Shard, i: nat, after: Rows)
    requires FinishStep(c, st, st', s, i, after)
    ensures Work(st') == Work(st) + 1
  {
    hide Materialized; hide Produced; hide Runs; hide Stopped;
  }

  lemma StepWorks(c: Job, st: State, st': State)
    requires Next(c, st, st')
    ensures Work(st') == Work(st) + 1
  {
    hide ReadStep; hide ExecuteStep; hide FinishStep; hide Work;
    if s, i: nat :| ReadStep(c, st, st', s, i) {
      ReadWorks(c, st, st', s, i);
    } else if s, i: nat, snap :| ExecuteStep(c, st, st', s, i, snap) {
      ExecuteWorks(c, st, st', s, i, snap);
    } else {
      var s, i: nat, after :| FinishStep(c, st, st', s, i, after);
      FinishWorks(c, st, st', s, i, after);
    }
  }

  lemma {:induction false} RunWork(c: Job, run: seq<State>)
    requires IsRun(c, run)
    ensures Work(Last(run)) == |run| - 1
  {
    hide Next;
    if |run| > 1 {
      var n := |run| - 1;
      assert IsRun(c, run[..n]);
      RunWork(c, run[..n]);
      assert Next(c, run[n - 1], run[n - 1 + 1]);
      StepWorks(c, run[n - 1], run[n]);
    }
  }

  /** Every run is finite, whatever the interleaving: it has at most three steps per part. */
  lemma RunBounded(c: Job, run: seq<State>)
    requires IsRun(c, run)
    ensures |run| - 1 <= 3 * |Parts(c)|
  {
    hide Next; hide Parts; hide Work; hide Ordered;
    RunWork(c, run);
    RunOrdered(c, run);
    WorkBounded(c, Last(run));
  }

  ghost predicate Halted(c: Job, st: State) {
    forall st' :: !Next(c, st, st')
  }

  /** The verdict: a run that can go no further reports a violation exactly if the serial run
      has one, and otherwise it has finished everywhere. */
  lemma VerdictIsSerial(c: Job, run: seq<State>)
    requires WellFormed(c) && Orderly(c) && IsRun(c, run) && Halted(c, Last(run))
    ensures Last(run).failed != {} <==> !AllWithin(c, Unchecked, |c.block|)
    ensures Last(run).failed == {} ==> Finished(c, Last(run))
  {
    var st := Last(run);
    RunKeeps(c, run);
    hide WellFormed; hide Orderly; hide IsRun; hide Next; hide AllWithin; hide Finished; hide Ordered;
    if st.failed != {} {
      FailureIsSerial(c, run);
    } else if !Finished(c, st) {
      NotStuck(c, st);
    } else {
      FinishedIsValid(c, st);
    }
  }

  // ---- The shard's lock manager decides exactly `Granted` ----

  /** In the dispatch loop of a shard, the published transactions are exactly those that take
      part there and whose earlier conflicting ones have released there. */
  lemma ManagerGrants(c: Job, s: Shard, done: set<Part>, m: Locks.LockManager, completed: set<nat>, i: nat)
    requires Locks.Steady(m, completed) && m.want == Locks.Demands(c.block, Some(s), c.home)
    requires forall j :: j in completed <==> (s, j) in done
    ensures i in Locks.Participants(m.enqueued) <==> Participates(c, s, i) && Granted(c, done, s, i)
  {
    hide DeclaredReads; hide DeclaredWrites; hide Locks.Steady;
    Locks.PublishedExactly(m, completed, i);
    DemandShape(c, s);
    if i < |c.block| {
      GrantedIsClear(c, s, done, m.want, completed, i);
      if m.want[i] != map[] {
        var k :| k in m.want[i];
        assert Declares(c, i, k) && At(c, k, s);
      }
    }
  }

  lemma DemandShape(c: Job, s: Shard)
    ensures var want := Locks.Demands(c.block, Some(s), c.home);
            && |want| == |c.block|
            && (forall i: nat, k :: i < |want| ==> (k in want[i] <==> Declares(c, i, k) && At(c, k, s)))
            && (forall i: nat, k :: i < |want| && k in want[i] ==> (want[i][k] <==> Writes(c, i, k)))
  {
  }

  lemma GrantedIsClear(c: Job, s: Shard, done: set<Part>, want: seq<Locks.Demand>, completed: set<nat>, i: nat)
    requires want == Locks.Demands(c.block, Some(s), c.home) && i < |want|
    requires forall j :: j in completed <==> (s, j) in done
    ensures Granted(c, done, s, i) <==> forall j: nat, k :: j < i && Locks.Conflict(want, j, i, k) ==> j in completed
  {
    DemandShape(c, s);
    hide DeclaredReads; hide DeclaredWrites; hide Locks.Demands; hide At;
    if Granted(c, done, s, i) {
      forall j: nat, k | j < i && Locks.Conflict(want, j, i, k)
        ensures j in completed
      {
        assert Declares(c, j, k) && Declares(c, i, k) && At(c, k, s);
      }
    } else {
      var j: nat, k :| j < i && Declares(c, j, k) && Declares(c, i, k) && At(c, k, s)
        && (Writes(c, j, k) || Writes(c, i, k)) && (s, j) !in done;
      assert Locks.Conflict(want, j, i, k);
    }
  }

  // ---- A violation stops its shard ----

  /** Nothing of the shard differs: neither its rows nor what it read, executed and released. */
  ghost predicate SameShard(a: State, b: State, s: Shard) {
    && RowsAt(a.working, s) == RowsAt(b.working, s)
    && forall i: nat ::
      && ((s, i) in a.readBy <==> (s, i) in b.readBy) && ((s, i) in a.ran <==> (s, i) in b.ran)
      && ((s, i) in a.done <==> (s, i) in b.done) && ((s, i) in a.failed <==> (s, i) in b.failed)
  }

  lemma StoppedRests(c: Job, st: State, st': State, s: Shard)
    requires Next(c, st, st') && Stopped(st, s)
    ensures SameShard(st, st', s) && Stopped(st', s)
  {
    hide Granted; hide Participates; hide Runs; hide Snapshot; hide Materialized; hide Arrived; hide Execute;
    hide Produced; hide ReadResult; hide RowsAt; hide WithinDeclaration;
    var j :| (s, j) in st.failed;
    assert st.failed <= st'.failed && (s, j) in st'.failed;
    if t, i: nat :| ReadStep(c, st, st', t, i) {
      assert t != s;
    } else if t, i: nat, snap :| ExecuteStep(c, st, st', t, i, snap) {
      assert t != s;
    } else {
      var t, i: nat, after :| FinishStep(c, st, st', t, i, after);
      assert t != s;
      OtherRows(st.working, s, t, after);
    }
  }

  lemma OtherRows(working: Stores, s: Shard, t: Shard, after: Rows)
    requires s != t
    ensures RowsAt(working[t := after], s) == RowsAt(working, s)
  {
  }

  /** From a violation on, whatever the others do, the shard takes no step. */
  lemma {:induction false} StoppedForGood(c: Job, run: seq<State>, p: nat, q: nat, s: Shard)
    requires IsRun(c, run) && p <= q < |run| && Stopped(run[p], s)
    ensures SameShard(run[p], run[q], s) && Stopped(run[q], s)
  {
    hide Next; hide Stopped;
    if p < q {
      StoppedForGood(c, run, p, q - 1, s);
      assert Next(c, run[q - 1], run[(q - 1) + 1]);
      StoppedRests(c, run[q - 1], run[q], s);
    }
  }
}
