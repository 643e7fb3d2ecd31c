/** Stateless Calvin: a transaction runs at one shard on values fetched by exact version,
    publishes a version for every declared write, repeating the predecessor where it wrote
    nothing, and the home shards materialize the rows sent to them in version order. Every
    interleaving publishes, fetches and computes the same values. */
module CalvinStateless {
  import opened Basics
  import opened Transactions
  import opened SerialRows
  import opened CalvinPlan
  import D = Digraphs
  import Locks = CalvinLocks

  /** One replica's completion of one transaction. */
  type Part = (Shard, nat)

  /** `job.seat` names the executing shard of every transaction; `earlier`: versions published by
      earlier blocks. */
  datatype Setup = Setup(job: Job, height: nat, shards: set<Shard>, earlier: map<(Key, nat), Value>)

  /** A row sent to the home of its key. */
  datatype WriteRow = WriteRow(key: Key, value: Value, version: nat, noop: bool)

  /** `fetched`: the values each running transaction has collected; `failed`: transactions that
      left their declaration, each of which stops its executing shard. */
  datatype State = State(published: map<(Key, nat), Value>, fetched: map<nat, Rows>, ran: map<nat, Outcome>,
      rows: set<WriteRow>, done: set<Part>, failed: set<nat>)

  ghost function Ver(c: Setup, i: nat): nat {
    Version(c.height, i)
  }

  ghost predicate WellFormed(c: Setup) {
    && Sound(c.job) && Plannable(c.height, c.job.block)
    && (forall i :: 0 <= i < |c.job.block| ==> c.job.seat[i] in c.shards)
    && (forall p :: p in c.earlier ==> p.1 < Version(c.height, 0))
  }

  lemma SeatsFit(c: Setup)
    requires WellFormed(c)
    ensures |c.job.block| == |c.job.seat|
  {
  }

  /** The logical lock table covers every declared key, at every replica. */
  ghost predicate Granted(c: Setup, done: set<Part>, s: Shard, i: nat) {
    forall j: nat, k ::
      && j < i && Declares(c.job, j, k) && Declares(c.job, i, k)
      && (Writes(c.job, j, k) || Writes(c.job, i, k))
      ==> (s, j) in done
  }

  // ---- The row image a transaction runs on ----

  /** Of the fetched keys with row name `r` at the executing shard the last in key order is
      kept. Only two keys can have a row name: itself and the plain name. */
  function SlotKey(c: Job, keys: set<Key>, e: Shard, r: Key): Key {
    var plain := Plain(r.name);
    if plain in keys && Qualify(e, plain) == r && !(r in keys && RankOf(c, r) > RankOf(c, plain)) then plain else r
  }

  ghost predicate Slotted(keys: set<Key>, e: Shard, r: Key) {
    exists k :: k in keys && Qualify(e, k) == r
  }

  lemma SlotKeyIs(c: Job, keys: set<Key>, e: Shard, r: Key)
    requires Slotted(keys, e, r)
    ensures SlotKey(c, keys, e, r) in keys && Qualify(e, SlotKey(c, keys, e, r)) == r
    ensures forall k :: k in keys && Qualify(e, k) == r && k != SlotKey(c, keys, e, r) ==>
      RankOf(c, k) <= RankOf(c, SlotKey(c, keys, e, r))
  {
  }

  ghost function Image(c: Job, e: Shard, values: Rows): Rows {
    map r | r in (set k | k in values :: Qualify(e, k)) :: Look(values, SlotKey(c, values.Keys, e, r))
  }

  lemma ImageShows(c: Job, e: Shard, values: Rows, r: Key)
    ensures r in Image(c, e, values) <==> Slotted(values.Keys, e, r)
    ensures r in Image(c, e, values) ==> Image(c, e, values)[r] == Look(values, SlotKey(c, values.Keys, e, r))
  {
    hide Qualify; hide SlotKey; hide Look;
    if k :| k in values.Keys && Qualify(e, k) == r {
      assert r in (set x | x in values :: Qualify(e, x));
    }
  }

  // ---- What counts as written ----

  /** `writeSetLogicalValue`: a plain key counts as written, with that value, when the write set
      has it or has a qualified form of it. */
  ghost predicate CountsAs(writes: Rows, k: Key, v: Value) {
    if k in writes then v == writes[k] else k.Plain? && exists z ::
      Qualified(z, k.name) in writes && v == writes[Qualified(z, k.name)]
  }

  ghost predicate IsWritten(writes: Rows, k: Key) {
    exists v :: CountsAs(writes, k, v)
  }

  ghost predicate IsNoop(o: Outcome, k: Key) {
    !o.success || !IsWritten(o.writes, k)
  }

  // ---- Steps ----

  ghost predicate Stopped(c: Setup, st: State, s: Shard) {
    exists i :: i in st.failed && i < |c.job.seat| && c.job.seat[i] == s
  }

  ghost function Init(c: Setup): State {
    State(c.earlier, map[], map[], {}, {}, {})
  }

  ghost function FetchedBy(st: State, i: nat): Rows {
    if i in st.fetched then st.fetched[i] else map[]
  }

  ghost function Required(c: Setup, i: nat, k: Key): nat
    requires i <= |c.job.block|
  {
    RequiredVersion(c.height, c.job.block, i, k)
  }

  /** The exact predecessor of `k` can be read: it is the block-start value or published. */
  ghost predicate Available(c: Setup, st: State, i: nat, k: Key) {
    i < |c.job.block| && (Required(c, i, k) == 0 || (k, Required(c, i, k)) in st.published)
  }

  /** The row of a key at its home at block start. */
  ghost function StartOf(c: Job, k: Key): Value {
    if k in c.home then Peek(c.bases, Where(c, k)) else Blank
  }

  ghost function Predecessor(c: Setup, st: State, i: nat, k: Key): Value
    requires Available(c, st, i, k)
  {
    if Required(c, i, k) == 0 then StartOf(c.job, k) else st.published[(k, Required(c, i, k))]
  }

  /** The executing shard goes on and holds the transaction's locks. */
  ghost predicate Running(c: Setup, st: State, i: nat) {
    i < |c.job.block| == |c.job.seat| && !Stopped(c, st, c.job.seat[i]) && Granted(c, st.done, c.job.seat[i], i)
  }

  /** The executing shard fetches one declared read. */
  ghost predicate FetchStep(c: Setup, st: State, st': State, i: nat, k: Key) {
    && Running(c, st, i) && Reads(c.job, i, k)
    && k !in FetchedBy(st, i) && i !in st.ran && Available(c, st, i, k)
    && st' == st.(fetched := st.fetched[i := FetchedBy(st, i)[k := Predecessor(c, st, i, k)]])
  }

  ghost predicate AllFetched(c: Setup, st: State, i: nat) {
    forall k :: Reads(c.job, i, k) ==> k in FetchedBy(st, i)
  }

  ghost function ImageOf(c: Setup, st: State, i: nat): Rows
    requires i < |c.job.seat|
  {
    Image(c.job, c.job.seat[i], FetchedBy(st, i))
  }

  /** It runs the transaction on what it fetched, stored under its own row names. */
  ghost predicate RunStep(c: Setup, st: State, st': State, i: nat) {
    && Running(c, st, i) && i !in st.ran && AllFetched(c, st, i)
    && var o := Execute(c.job.block[i], ImageOf(c, st, i), Some(c.job.seat[i]));
       st' == if WithinDeclaration(c.job.block[i], o) then st.(ran := st.ran[i := o])
         else st.(failed := st.failed + {i})
  }

  ghost predicate Written(c: Setup, st: State, i: nat, k: Key) {
    exists v, n :: WriteRow(k, v, Ver(c, i), n) in st.rows
  }

  /** `publishStateVersion`: a version once published keeps its value. */
  ghost function Publish(published: map<(Key, nat), Value>, k: Key, v: nat, value: Value): map<(Key, nat), Value> {
    if (k, v) in published then published else published[(k, v) := value]
  }

  /** What is published for a declared write: the value written or, for an ordering no-op, what
      the row image has under the key's row name, or else the predecessor fetched now. */
  ghost predicate Sends(c: Setup, st: State, i: nat, k: Key, v: Value)
    requires i in st.ran && i < |c.job.seat|
  {
    var r := Qualify(c.job.seat[i], k);
    if !IsNoop(st.ran[i], k) then CountsAs(st.ran[i].writes, k, v)
    else if r in ImageOf(c, st, i) then v == ImageOf(c, st, i)[r]
    else Available(c, st, i, k) && v == Predecessor(c, st, i, k)
  }

  /** It publishes the version of one declared write and sends the row to the key's home. */
  ghost predicate WriteStep(c: Setup, st: State, st': State, i: nat, k: Key, v: Value) {
    && i < |c.job.block| == |c.job.seat| && !Stopped(c, st, c.job.seat[i]) && i in st.ran && Writes(c.job, i, k)
      && !Written(c, st, i, k)
    && Sends(c, st, i, k, v)
    && st' == st.(published := Publish(st.published, k, Ver(c, i), v), rows :=
      st.rows + {WriteRow(k, v, Ver(c, i), IsNoop(st.ran[i], k))})
  }

  ghost predicate AllWritten(c: Setup, st: State, i: nat) {
    i in st.ran && forall k :: Writes(c.job, i, k) ==> Written(c, st, i, k)
  }

  /** A replica completes the transaction: the executor after its writebacks, the others on
      receiving the outcome it sends then. */
  ghost predicate CompleteStep(c: Setup, st: State, st': State, s: Shard, i: nat) {
    && s in c.shards && !Stopped(c, st, s) && i < |c.job.block| && (s, i) !in st.done && Granted(c, st.done, s, i)
      && AllWritten(c, st, i)
    && st' == st.(done := st.done + {(s, i)})
  }

  ghost predicate Next(c: Setup, st: State, st': State) {
    || (exists i: nat, k :: FetchStep(c, st, st', i, k))
    || (exists i: nat :: RunStep(c, st, st', i))
    || (exists i: nat, k, v :: WriteStep(c, st, st', i, k, v))
    || (exists s, i: nat :: CompleteStep(c, st, st', s, i))
  }

  ghost predicate IsRun(c: Setup, run: seq<State>) {
    && |run| > 0 && run[0] == Init(c)
    && forall p :: 0 <= p < |run| - 1 ==> Next(c, run[p], run[p + 1])
  }

  ghost function Last(run: seq<State>): State
    requires |run| > 0
  {
    run[|run| - 1]
  }

  // ---- What happened is well ordered ----

  /** Fetches are declared reads, everything fetched before the run; rows are declared writes of
      transactions that ran, and their versions are published; completions follow all rows. */
  ghost predicate Ordered(c: Setup, st: State) {
    && (forall i, k :: i in st.fetched && k in st.fetched[i] ==> Reads(c.job, i, k))
    && (forall i :: i in st.ran ==> i < |c.job.block| && AllFetched(c, st, i) && i !in st.failed)
    && (forall i :: i in st.failed ==> i < |c.job.block|)
    && (forall r :: r in st.rows ==> exists i: nat :: i in st.ran && Writes(c.job, i, r.key) && r.version == Ver(c, i))
    && (forall i: nat, k :: Written(c, st, i, k) && i < |c.job.block| ==> (k, Ver(c, i)) in st.published)
    && (forall s, i :: (s, i) in st.done ==> s in c.shards && i < |c.job.block| && AllWritten(c, st, i))
  }

  lemma VersionsDistinct(c: Setup, i: nat, j: nat)
    requires WellFormed(c) && i < |c.job.block| && j < |c.job.block|
    ensures 0 < Ver(c, i) && Version(c.height, 0) <= Ver(c, i)
    ensures Ver(c, i) < Ver(c, j) <==> i < j
    ensures Ver(c, i) == Ver(c, j) <==> i == j
  {
    hide Canonical; hide Sound;
    VersionsOrdered(c.height, i, c.height, j);
  }

  lemma FetchChanges(c: Setup, st: State, st': State, i: nat, k: Key)
    requires FetchStep(c, st, st', i, k)
    ensures i < |c.job.block| && i !in st.ran && Reads(c.job, i, k) && Available(c, st, i, k) && k !in FetchedBy(st, i)
    ensures st' == st.(fetched := st.fetched[i := FetchedBy(st, i)[k := Predecessor(c, st, i, k)]])
  {
    hide Running; hide Available; hide Predecessor; hide FetchedBy;
    assert i < |c.job.block| by { assert Reads(c.job, i, k); }
  }

  lemma RunChanges(c: Setup, st: State, st': State, i: nat)
    requires RunStep(c, st, st', i)
    ensures i < |c.job.block| == |c.job.seat| && i !in st.ran && i !in st.failed && AllFetched(c, st, i)
    ensures st'.published == st.published && st'.fetched == st.fetched && st'.rows == st.rows && st'.done == st.done
    ensures var o := Execute(c.job.block[i], ImageOf(c, st, i), Some(c.job.seat[i]));
            if WithinDeclaration(c.job.block[i], o) then st'.ran == st.ran[i := o] && st'.failed == st.failed
            else st'.ran == st.ran && st'.failed == st.failed + {i}
  {
    hide AllFetched; hide Execute; hide WithinDeclaration; hide Granted; hide ImageOf;
  }

  lemma WriteChanges(c: Setup, st: State, st': State, i: nat, k: Key, v: Value)
    requires WriteStep(c, st, st', i, k, v)
    ensures i < |c.job.block| == |c.job.seat| && i in st.ran && Writes(c.job, i, k) && !Written(c, st, i, k)
    ensures Sends(c, st, i, k, v)
    ensures st'.fetched == st.fetched && st'.ran == st.ran && st'.done == st.done && st'.failed == st.failed
    ensures st'.published == Publish(st.published, k, Ver(c, i), v)
    ensures st'.rows == st.rows + {WriteRow(k, v, Ver(c, i), IsNoop(st.ran[i], k))}
  {
    hide Sends; hide Written; hide Writes; hide IsNoop; hide Stopped;
  }

  lemma CompleteChanges(c: Setup, st: State, st': State, s: Shard, i: nat)
    requires CompleteStep(c, st, st', s, i)
    ensures s in c.shards && i < |c.job.block| && (s, i) !in st.done && AllWritten(c, st, i)
    ensures st' == st.(done := st.done + {(s, i)})
  {
    hide AllWritten; hide Granted; hide Stopped;
  }

  /** Rows that stay keep what was said about them. */
  lemma SameRows(c: Setup, st: State, st': State)
    requires Ordered(c, st) && st'.rows == st.rows && st'.published == st.published
    requires (forall i :: i in st.ran ==> i in st'.ran)
    ensures forall r ::
      r in st'.rows ==> exists i: nat :: i in st'.ran && Writes(c.job, i, r.key) && r.version == Ver(c, i)
    ensures forall i: nat, k :: Written(c, st', i, k) && i < |c.job.block| ==> (k, Ver(c, i)) in st'.published
    ensures forall i: nat :: AllWritten(c, st, i) ==> AllWritten(c, st', i)
  {
    hide Writes; hide AllFetched; hide Reads; hide Ver;
    forall i: nat, k
      ensures Written(c, st', i, k) <==> Written(c, st, i, k)
    {
    }
    hide Written;
  }

  lemma FetchOrdered(c: Setup, st: State, st': State, i: nat, k: Key)
    requires Ordered(c, st) && FetchStep(c, st, st', i, k)
    ensures Ordered(c, st')
  {
    FetchChanges(c, st, st', i, k);
    SameRows(c, st, st');
    hide FetchStep; hide Written; hide Available; hide Predecessor; hide Reads; hide Writes; hide Ver; hide AllWritten;
    forall j | j in st'.ran
      ensures AllFetched(c, st', j)
    {
      assert AllFetched(c, st, j);
    }
    hide AllFetched;
  }

  lemma RunOrderedStep(c: Setup, st: State, st': State, i: nat)
    requires Ordered(c, st) && RunStep(c, st, st', i)
    ensures Ordered(c, st')
  {
    RunChanges(c, st, st', i);
    SameRows(c, st, st');
    hide RunStep; hide Written; hide Reads; hide Writes; hide Ver; hide AllWritten; hide Execute;
    hide WithinDeclaration; hide ImageOf;
    forall j | j in st'.ran
      ensures AllFetched(c, st', j)
    {
      assert AllFetched(c, st, j);
    }
    hide AllFetched;
  }

  lemma WriteOrdered(c: Setup, st: State, st': State, i: nat, k: Key, v: Value)
    requires WellFormed(c) && Ordered(c, st) && WriteStep(c, st, st', i, k, v)
    ensures Ordered(c, st')
  {
    WriteChanges(c, st, st', i, k, v);
    hide WriteStep; hide Sends; hide Writes; hide Reads; hide IsNoop; hide WellFormed; hide Ver;
    forall j: nat, b
      ensures Written(c, st, j, b) ==> Written(c, st', j, b)
      ensures Written(c, st', j, b) && j < |c.job.block| ==> Written(c, st, j, b) || (j == i && b == k)
    {
      if j < |c.job.block| {
        VersionsDistinct(c, i, j);
      }
    }
    hide Written;
    forall j | j in st'.ran
      ensures AllFetched(c, st', j)
    {
      assert AllFetched(c, st, j);
    }
    hide AllFetched;
    forall s, j | (s, j) in st'.done
      ensures AllWritten(c, st', j)
    {
      assert AllWritten(c, st, j);
    }
  }

  lemma CompleteOrdered(c: Setup, st: State, st': State, s: Shard, i: nat)
    requires Ordered(c, st) && CompleteStep(c, st, st', s, i)
    ensures Ordered(c, st')
  {
    CompleteChanges(c, st, st', s, i);
    SameRows(c, st, st');
    hide CompleteStep; hide Written; hide Reads; hide Writes; hide Ver;
    forall j | j in st'.ran
      ensures AllFetched(c, st', j)
    {
      assert AllFetched(c, st, j);
    }
    hide AllFetched; hide AllWritten;
  }

  lemma NextOrdered(c: Setup, st: State, st': State)
    requires WellFormed(c) && Ordered(c, st) && Next(c, st, st')
    ensures Ordered(c, st')
  {
    hide Ordered; hide WellFormed; hide FetchStep; hide RunStep; hide WriteStep; hide CompleteStep;
    if i: nat, k :| FetchStep(c, st, st', i, k) {
      FetchOrdered(c, st, st', i, k);
    } else if i: nat :| RunStep(c, st, st', i) {
      RunOrderedStep(c, st, st', i);
    } else if i: nat, k, v :| WriteStep(c, st, st', i, k, v) {
      WriteOrdered(c, st, st', i, k, v);
    } else {
      var s, i: nat :| CompleteStep(c, st, st', s, i);
      CompleteOrdered(c, st, st', s, i);
    }
  }

  lemma InitOrdered(c: Setup)
    ensures Ordered(c, Init(c))
  {
  }

  lemma {:induction false} RunOrdered(c: Setup, run: seq<State>)
    requires WellFormed(c) && IsRun(c, run)
    ensures Ordered(c, Last(run))
  {
    hide Next; hide Ordered; hide WellFormed;
    if |run| == 1 {
      InitOrdered(c);
    } else {
      var n := |run| - 1;
      assert IsRun(c, run[..n]);
      RunOrdered(c, run[..n]);
      assert Next(c, run[n - 1], run[n - 1 + 1]);
      NextOrdered(c, run[n - 1], run[n]);
    }
  }

  // ---- The one result of all interleavings ----

  /** The value a read of `k` before transaction `m` fetches. */
  ghost function Val(c: Job, m: nat, k: Key): Value
    requires m <= |c.block| == |c.seat|
    decreases m, 0
  {
    if m == 0 then StartOf(c, k)
    else if k in DeclaredWrites(c.block[m - 1]) then Pub(c, m - 1, k)
    else Val(c, m - 1, k)
  }

  ghost function Picture(c: Job, i: nat): Rows
    requires i < |c.block| == |c.seat|
    decreases i, 1
  {
    Image(c, c.seat[i], map k | k in DeclaredReads(c.block[i]) :: Val(c, i, k))
  }

  ghost function Got(c: Job, i: nat): Outcome
    requires i < |c.block| == |c.seat|
    decreases i, 2
  {
    Execute(c.block[i], Picture(c, i), Some(c.seat[i]))
  }

  /** The transaction's write of `k` has no effect. */
  ghost predicate Lost(c: Job, i: nat, k: Key)
    requires i < |c.block| == |c.seat|
    decreases i, 3
  {
    !WithinDeclaration(c.block[i], Got(c, i)) || IsNoop(Got(c, i), k)
  }

  /** The value published for a declared write. */
  ghost function Pub(c: Job, i: nat, k: Key): Value
    requires i < |c.block| == |c.seat|
    decreases i, 4
  {
    if !Lost(c, i, k) then SentValue(Got(c, i).writes, k)
    else if Qualify(c.seat[i], k) in Picture(c, i) then Picture(c, i)[Qualify(c.seat[i], k)]
    else Val(c, i, k)
  }

  ghost function SentValue(writes: Rows, k: Key): Value
    requires IsWritten(writes, k)
  {
    var v :| CountsAs(writes, k, v);
    v
  }

  lemma ValStep(c: Job, i: nat, k: Key)
    requires i < |c.block| == |c.seat|
    ensures Val(c, i + 1, k) == if k in DeclaredWrites(c.block[i]) then Pub(c, i, k) else Val(c, i, k)
  {
  }

  /** No plain key borrows from two qualified forms written at once. */
  ghost predicate Unambiguous(c: Job) {
    forall i: nat, k, v, w ::
      && i < |c.block| == |c.seat| && WithinDeclaration(c.block[i], Got(c, i)) && Writes(c, i, k)
      && CountsAs(Got(c, i).writes, k, v) && CountsAs(Got(c, i).writes, k, w)
      ==> v == w
  }

  /** Published, fetched and computed values are those. */
  ghost predicate Agrees(c: Setup, st: State)
    requires |c.job.block| == |c.job.seat|
  {
    && (forall i: nat, k ::
      i < |c.job.block| && (k, Ver(c, i)) in st.published ==> st.published[(k, Ver(c, i))] == Pub(c.job, i, k))
    && (forall i, k ::
      i in st.fetched && k in st.fetched[i] ==> i < |c.job.block| && st.fetched[i][k] == Val(c.job, i, k))
    && (forall i ::
      i in st.ran ==> i < |c.job.block| && st.ran[i] == Got(c.job, i) && WithinDeclaration(c.job.block[i], st.ran[i]))
    && (forall i :: i in st.failed ==> i < |c.job.block| && !WithinDeclaration(c.job.block[i], Got(c.job, i)))
    && (forall r :: r in st.rows ==> exists i: nat :: i in st.ran && Writes(c.job, i, r.key) && r == RowOf(c, i, r.key))
  }

  /** The one row a transaction sends for a declared write. */
  ghost function RowOf(c: Setup, i: nat, k: Key): WriteRow
    requires |c.job.block| == |c.job.seat|
  {
    if i < |c.job.block| then WriteRow(k, Pub(c.job, i, k), Ver(c, i), Lost(c.job, i, k))
      else WriteRow(k, Blank, 0, true)
  }

  lemma {:induction false} ValByWriter(c: Job, m: nat, k: Key)
    requires m <= |c.block| == |c.seat|
    ensures match LastWriter(c.block, m, k)
            case None => Val(c, m, k) == StartOf(c, k)
            case Some(w) => w < m && Val(c, m, k) == Pub(c, w, k)
  {
    hide DeclaredWrites; hide Pub; hide StartOf;
    if m > 0 && k !in DeclaredWrites(c.block[m - 1]) {
      ValByWriter(c, m - 1, k);
    }
  }

  /** Reading the exact predecessor gives that value. */
  lemma PredecessorAgrees(c: Setup, st: State, i: nat, k: Key)
    requires WellFormed(c) && Agrees(c, st) && Available(c, st, i, k)
    ensures Predecessor(c, st, i, k) == Val(c.job, i, k)
  {
    hide Val; hide Pub; hide LastWriter; hide Got; hide StartOf; hide Lost; hide Writes; hide WithinDeclaration;
    hide RowOf;
    ValByWriter(c.job, i, k);
    match LastWriter(c.job.block, i, k)
    case None =>
    case Some(w) => VersionsDistinct(c, w, w);
  }

  lemma InitAgrees(c: Setup)
    requires WellFormed(c)
    ensures Agrees(c, Init(c))
  {
    hide Val; hide Pub; hide Got;
    forall i: nat, k | i < |c.job.block|
      ensures (k, Ver(c, i)) !in c.earlier
    {
      VersionsDistinct(c, i, i);
    }
  }

  lemma FetchAgrees(c: Setup, st: State, st': State, i: nat, k: Key)
    requires WellFormed(c) && Agrees(c, st) && FetchStep(c, st, st', i, k)
    ensures Agrees(c, st')
  {
    hide Val; hide Pub; hide Got; hide FetchStep; hide Available; hide Predecessor; hide Reads; hide Writes; hide Ver;
    hide RowOf; hide WithinDeclaration;
    assert |c.job.block| == |c.job.seat|;
    hide WellFormed;
    FetchChanges(c, st, st', i, k);
    PredecessorAgrees(c, st, i, k);
  }

  /** What a transaction has fetched in the end. */
  lemma FetchedIs(c: Setup, st: State, i: nat)
    requires |c.job.block| == |c.job.seat| && Ordered(c, st) && Agrees(c, st) && AllFetched(c, st, i)
    requires i < |c.job.block|
    ensures FetchedBy(st, i) == map k | k in DeclaredReads(c.job.block[i]) :: Val(c.job, i, k)
    ensures ImageOf(c, st, i) == Picture(c.job, i)
  {
    hide Val; hide Pub; hide Got; hide Ver; hide RowOf; hide WithinDeclaration; hide DeclaredReads; hide Written;
    hide AllWritten; hide Writes; hide Image;
    var want := map k | k in DeclaredReads(c.job.block[i]) :: Val(c.job, i, k);
    forall k
      ensures k in FetchedBy(st, i) <==> k in want
    {
      assert Reads(c.job, i, k) <==> k in want;
    }
    assert FetchedBy(st, i) == want;
  }

  lemma RunAgreesStep(c: Setup, st: State, st': State, i: nat)
    requires WellFormed(c) && Ordered(c, st) && Agrees(c, st) && RunStep(c, st, st', i)
    ensures Agrees(c, st')
  {
    hide WellFormed; hide Val; hide Pub; hide Execute; hide RunStep; hide Writes; hide Ver; hide RowOf;
    hide WithinDeclaration; hide ImageOf; hide Picture; hide Ordered; hide AllFetched;
    SeatsFit(c);
    RunChanges(c, st, st', i);
    FetchedIs(c, st, i);
    assert Execute(c.job.block[i], ImageOf(c, st, i), Some(c.job.seat[i])) == Got(c.job, i);
    hide Got;
    forall r | r in st'.rows
      ensures exists j: nat :: j in st'.ran && Writes(c.job, j, r.key) && r == RowOf(c, j, r.key)
    {
      var j: nat :| j in st.ran && Writes(c.job, j, r.key) && r == RowOf(c, j, r.key);
      assert j in st'.ran;
    }
  }

  /** What is published for a declared write is that value. */
  lemma SendsAgrees(c: Setup, st: State, i: nat, k: Key, v: Value)
    requires WellFormed(c) && Unambiguous(c.job) && Ordered(c, st) && Agrees(c, st) && i in st.ran && i < |c.job.block|
    requires Writes(c.job, i, k) && Sends(c, st, i, k, v)
    ensures v == Pub(c.job, i, k) && IsNoop(st.ran[i], k) == Lost(c.job, i, k)
  {
    assert |c.job.block| == |c.job.seat|;
    assert st.ran[i] == Got(c.job, i) && WithinDeclaration(c.job.block[i], Got(c.job, i)) && AllFetched(c, st, i);
    FetchedIs(c, st, i);
    hide Val; hide Got; hide Ver; hide RowOf; hide WithinDeclaration; hide Picture; hide ImageOf; hide Writes;
    hide Available; hide Predecessor; hide Ordered; hide AllFetched;
    if IsNoop(st.ran[i], k) {
      if Qualify(c.job.seat[i], k) !in ImageOf(c, st, i) {
        PredecessorAgrees(c, st, i, k);
      }
    } else {
      hide Agrees; hide WellFormed;
      assert CountsAs(Got(c.job, i).writes, k, SentValue(Got(c.job, i).writes, k));
    }
  }

  lemma PublishAgrees(c: Setup, published: map<(Key, nat), Value>, i: nat, k: Key)
    requires WellFormed(c) && i < |c.job.block|
    requires forall j: nat, b ::
      j < |c.job.block| && (b, Ver(c, j)) in published ==> published[(b, Ver(c, j))] == Pub(c.job, j, b)
    ensures var published' := Publish(published, k, Ver(c, i), Pub(c.job, i, k));
            forall j: nat, b :: j < |c.job.block| && (b, Ver(c, j)) in published'
              ==> published'[(b, Ver(c, j))] == Pub(c.job, j, b)
  {
    assert |c.job.block| == |c.job.seat|;
    hide WellFormed; hide Pub; hide Ver;
    var published' := Publish(published, k, Ver(c, i), Pub(c.job, i, k));
    forall j: nat, b | j < |c.job.block| && (b, Ver(c, j)) in published'
      ensures published'[(b, Ver(c, j))] == Pub(c.job, j, b)
    {
      VersionsDistinct(c, i, j);
    }
  }

  lemma WriteAgrees(c: Setup, st: State, st': State, i: nat, k: Key, v: Value)
    requires WellFormed(c) && Unambiguous(c.job) && Ordered(c, st) && Agrees(c, st) && WriteStep(c, st, st', i, k, v)
    ensures Agrees(c, st')
  {
    hide WellFormed; hide Unambiguous; hide Val; hide Pub; hide Got; hide WriteStep; hide Writes; hide Ver;
    hide WithinDeclaration; hide Ordered; hide Sends; hide IsNoop; hide Lost; hide Written; hide Publish;
    SeatsFit(c);
    WriteChanges(c, st, st', i, k, v);
    SendsAgrees(c, st, i, k, v);
    PublishAgrees(c, st.published, i, k);
    var row := RowOf(c, i, k);
    assert st'.rows == st.rows + {row};
    forall r | r in st'.rows
      ensures exists j: nat :: j in st'.ran && Writes(c.job, j, r.key) && r == RowOf(c, j, r.key)
    {
      if r == row {
        assert i in st'.ran && Writes(c.job, i, r.key) && r == RowOf(c, i, r.key);
      } else {
        var j: nat :| j in st.ran && Writes(c.job, j, r.key) && r == RowOf(c, j, r.key);
      }
    }
  }

  lemma NextAgrees(c: Setup, st: State, st': State)
    requires WellFormed(c) && Unambiguous(c.job) && Ordered(c, st) && Agrees(c, st) && Next(c, st, st')
    ensures Agrees(c, st')
  {
    hide WellFormed; hide Unambiguous; hide Ordered; hide FetchStep; hide RunStep; hide WriteStep; hide CompleteStep;
    SeatsFit(c);
    if i: nat, k :| FetchStep(c, st, st', i, k) {
      hide Agrees;
      FetchAgrees(c, st, st', i, k);
    } else if i: nat :| RunStep(c, st, st', i) {
      hide Agrees;
      RunAgreesStep(c, st, st', i);
    } else if i: nat, k, v :| WriteStep(c, st, st', i, k, v) {
      hide Agrees;
      WriteAgrees(c, st, st', i, k, v);
    } else {
      var s, i: nat :| CompleteStep(c, st, st', s, i);
      CompleteChanges(c, st, st', s, i);
      hide Val; hide Pub; hide Got; hide Writes; hide RowOf; hide WithinDeclaration; hide Ver;
    }
  }

  /** The version chain: in every reachable state of every interleaving, every version published
      in this block, every fetched value, every outcome and every row sent is the one that the
      access lists, the plan and the programs determine. */
  lemma {:induction false} VersionChain(c: Setup, run: seq<State>)
    requires WellFormed(c) && Unambiguous(c.job) && IsRun(c, run)
    ensures Agrees(c, Last(run))
  {
    hide Agrees; hide Next; hide WellFormed; hide Unambiguous; hide Ordered; hide Init;
    SeatsFit(c);
    if |run| == 1 {
      InitAgrees(c);
    } else {
      var n := |run| - 1;
      assert IsRun(c, run[..n]);
      VersionChain(c, run[..n]);
      RunOrdered(c, run[..n]);
      assert Next(c, run[n - 1], run[n - 1 + 1]);
      NextAgrees(c, run[n - 1], run[n]);
    }
  }

  // ---- Progress ----

  ghost predicate Finished(c: Setup, st: State) {
    st.failed == {} && forall s, i: nat :: s in c.shards && i < |c.job.block| ==> (s, i) in st.done
  }

  ghost predicate Open(c: Setup, st: State, i: nat) {
    i < |c.job.block| && exists s :: s in c.shards && (s, i) !in st.done
  }

  lemma {:induction false} LowestOpen(c: Setup, st: State, some: nat) returns (i: nat)
    requires Open(c, st, some)
    ensures Open(c, st, i) && forall j: nat :: j < i ==> !Open(c, st, j)
  {
    hide Open;
    if j: nat :| j < some && Open(c, st, j) {
      i := LowestOpen(c, st, j);
    } else {
      i := some;
    }
  }

  /** For the lowest transaction still open somewhere, every exact predecessor is there. */
  lemma LowestHasPredecessors(c: Setup, st: State, i: nat, k: Key)
    requires WellFormed(c) && Ordered(c, st) && i < |c.job.block| && forall j: nat :: j < i ==> !Open(c, st, j)
    ensures Available(c, st, i, k)
  {
    hide DeclaredWrites; hide LastWriter; hide Canonical; hide Written; hide Reads; hide AllFetched;
    LastWriterIsGreatest(c.job.block, i, k);
    match LastWriter(c.job.block, i, k)
    case None =>
    case Some(w) =>
      assert !Open(c, st, w);
      assert (c.job.seat[w], w) in st.done;
      assert AllWritten(c, st, w) && Writes(c.job, w, k);
      assert Written(c, st, w, k);
      assert (k, Ver(c, w)) in st.published;
  }

  lemma LowestIsGranted(c: Setup, st: State, i: nat, s: Shard)
    requires s in c.shards && forall j: nat :: j < i ==> !Open(c, st, j)
    ensures Granted(c, st.done, s, i)
  {
    forall j: nat, k | j < i && Declares(c.job, j, k)
      ensures (s, j) in st.done
    {
      assert !Open(c, st, j);
    }
  }

  lemma SomeSend(c: Setup, st: State, i: nat, k: Key) returns (v: Value)
    requires i in st.ran && i < |c.job.seat| && Available(c, st, i, k)
    ensures Sends(c, st, i, k, v)
  {
    hide Available; hide Predecessor; hide ImageOf;
    var r := Qualify(c.job.seat[i], k);
    if !IsNoop(st.ran[i], k) {
      v :| CountsAs(st.ran[i].writes, k, v);
    } else if r in ImageOf(c, st, i) {
      v := ImageOf(c, st, i)[r];
    } else {
      v := Predecessor(c, st, i, k);
    }
  }

  /** While some replica has not completed some transaction and nothing has failed, a step is
      possible: waiting for an exact version never blocks the block for good. */
  lemma NotStuck(c: Setup, st: State)
    requires WellFormed(c) && Ordered(c, st) && st.failed == {} && !Finished(c, st)
    ensures exists st' :: Next(c, st, st')
  {
    hide DeclaredReads; hide DeclaredWrites; hide Execute; hide Available; hide Plannable; hide Written;
    hide Predecessor; hide Ordered; hide Sound; hide Sends; hide ImageOf; hide IsNoop;
    assert |c.job.block| == |c.job.seat| by { SeatsFit(c); }
    var z, some: nat :| z in c.shards && some < |c.job.block| && (z, some) !in st.done;
    assert Open(c, st, some);
    var i := LowestOpen(c, st, some);
    forall k
      ensures Available(c, st, i, k)
    {
      LowestHasPredecessors(c, st, i, k);
    }
    forall s | s in c.shards
      ensures Granted(c, st.done, s, i)
    {
      LowestIsGranted(c, st, i, s);
    }
    hide Granted;
    if i !in st.ran {
      if k :| Reads(c.job, i, k) && k !in FetchedBy(st, i) {
        var st' := st.(fetched := st.fetched[i := FetchedBy(st, i)[k := Predecessor(c, st, i, k)]]);
        assert FetchStep(c, st, st', i, k);
        assert Next(c, st, st');
      } else {
        var o := Execute(c.job.block[i], ImageOf(c, st, i), Some(c.job.seat[i]));
        var st' := if WithinDeclaration(c.job.block[i], o) then st.(ran := st.ran[i := o])
          else st.(failed := st.failed + {i});
        assert RunStep(c, st, st', i);
        assert Next(c, st, st');
      }
    } else if k :| Writes(c.job, i, k) && !Written(c, st, i, k) {
      var v := SomeSend(c, st, i, k);
      var st' := st.(published := Publish(st.published, k, Ver(c, i), v), rows :=
        st.rows + {WriteRow(k, v, Ver(c, i), IsNoop(st.ran[i], k))});
      assert WriteStep(c, st, st', i, k, v);
      assert Next(c, st, st');
    } else {
      var s :| s in c.shards && (s, i) !in st.done;
      var st' := st.(done := st.done + {(s, i)});
      assert CompleteStep(c, st, st', s, i);
      assert Next(c, st, st');
    }
  }

  // ---- Every run ends ----

  ghost function Fetches(fetched: map<nat, Rows>): set<(nat, Key)> {
    set i, k | i in fetched && k in fetched[i] :: (i, k)
  }

  lemma FetchesGrow(fetched: map<nat, Rows>, i: nat, rows: Rows, k: Key, v: Value)
    requires rows == (if i in fetched then fetched[i] else map[]) && k !in rows
    ensures (i, k) !in Fetches(fetched) && Fetches(fetched[i := rows[k := v]]) == Fetches(fetched) + {(i, k)}
  {
    var after := fetched[i := rows[k := v]];
    forall p | p in Fetches(after)
      ensures p in Fetches(fetched) + {(i, k)}
    {
    }
    forall p | p in Fetches(fetched) + {(i, k)}
      ensures p in Fetches(after)
    {
      assert p.0 in after && p.1 in after[p.0];
    }
  }

  /** The rows sent, by transaction and key. */
  ghost function Sent(c: Setup, st: State): set<(nat, Key)> {
    set i: nat, k | i < |c.job.block| && k in DeclaredWrites(c.job.block[i]) && Written(c, st, i, k) :: (i, k)
  }

  ghost function Work(c: Setup, st: State): nat {
    |Fetches(st.fetched)| + |st.ran.Keys + st.failed| + |Sent(c, st)| + |st.done|
  }

  ghost function AllReads(c: Setup): set<(nat, Key)> {
    set i: nat, k | i < |c.job.block| && k in DeclaredReads(c.job.block[i]) :: (i, k)
  }

  ghost function AllWrites(c: Setup): set<(nat, Key)> {
    set i: nat, k | i < |c.job.block| && k in DeclaredWrites(c.job.block[i]) :: (i, k)
  }

  ghost function AllParts(c: Setup): set<Part> {
    set s, i: nat | s in c.shards && i < |c.job.block| :: (s, i)
  }

  /** One fetch per declared read, one run per transaction, one row per declared write and
      one completion per replica and transaction. */
  ghost function Budget(c: Setup): nat {
    |AllReads(c)| + |c.job.block| + |AllWrites(c)| + |AllParts(c)|
  }

  lemma WorkBounded(c: Setup, st: State)
    requires Ordered(c, st)
    ensures Work(c, st) <= Budget(c)
  {
    hide DeclaredReads; hide DeclaredWrites; hide AllWritten; hide AllFetched; hide Written; hide Ver;
    Smaller(Fetches(st.fetched), AllReads(c));
    D.RangeCount(|c.job.block|);
    Smaller(st.ran.Keys + st.failed, D.Range(|c.job.block|));
    Smaller(Sent(c, st), AllWrites(c));
    forall p | p in st.done
      ensures p in AllParts(c)
    {
      assert (p.0, p.1) in st.done;
    }
    Smaller(st.done, AllParts(c));
  }

  lemma SameSent(c: Setup, st: State, st': State)
    requires st'.rows == st.rows
    ensures Sent(c, st') == Sent(c, st)
  {
    hide DeclaredWrites; hide Ver;
    forall i: nat, k
      ensures Written(c, st', i, k) <==> Written(c, st, i, k)
    {
    }
    hide Written;
  }

  lemma FetchWorks(c: Setup, st: State, st': State, i: nat, k: Key)
    requires FetchStep(c, st, st', i, k)
    ensures Work(c, st') == Work(c, st) + 1
  {
    hide FetchStep; hide Available; hide Predecessor; hide Reads; hide Fetches; hide Sent;
    FetchChanges(c, st, st', i, k);
    SameSent(c, st, st');
    FetchesGrow(st.fetched, i, FetchedBy(st, i), k, Predecessor(c, st, i, k));
  }

  lemma RanGrows(ran: map<nat, Outcome>, failed: set<nat>, i: nat, o: Outcome)
    requires i !in ran && i !in failed
    ensures |ran[i := o].Keys + failed| == |ran.Keys + failed| + 1 == |ran.Keys + (failed + {i})|
  {
    assert ran[i := o].Keys + failed == ran.Keys + failed + {i} == ran.Keys + (failed + {i});
  }

  lemma ExecuteWorks(c: Setup, st: State, st': State, i: nat)
    requires RunStep(c, st, st', i)
    ensures Work(c, st') == Work(c, st) + 1
  {
    hide RunStep; hide Execute; hide WithinDeclaration; hide AllFetched; hide ImageOf; hide Fetches; hide Sent;
    RunChanges(c, st, st', i);
    SameSent(c, st, st');
    RanGrows(st.ran, st.failed, i, Execute(c.job.block[i], ImageOf(c, st, i), Some(c.job.seat[i])));
  }

  lemma WriteWorks(c: Setup, st: State, st': State, i: nat, k: Key, v: Value)
    requires WellFormed(c) && WriteStep(c, st, st', i, k, v)
    ensures Work(c, st') == Work(c, st) + 1
  {
    hide WriteStep; hide WellFormed; hide Sends; hide Publish; hide IsNoop; hide Fetches; hide Ver; hide DeclaredWrites;
    WriteChanges(c, st, st', i, k, v);
    forall j: nat, b | j < |c.job.block|
      ensures Written(c, st', j, b) <==> Written(c, st, j, b) || (j == i && b == k)
    {
      VersionsDistinct(c, i, j);
      if Written(c, st, j, b) {
        var w, n :| WriteRow(b, w, Ver(c, j), n) in st.rows;
        assert WriteRow(b, w, Ver(c, j), n) in st'.rows;
      }
      if j == i && b == k {
        assert WriteRow(k, v, Ver(c, i), IsNoop(st.ran[i], k)) in st'.rows;
      }
    }
    hide Written;
    assert Sent(c, st') == Sent(c, st) + {(i, k)};
    assert (i, k) !in Sent(c, st);
    hide Sent;
  }

  lemma CompleteWorks(c: Setup, st: State, st': State, s: Shard, i: nat)
    requires CompleteStep(c, st, st', s, i)
    ensures Work(c, st') == Work(c, st) + 1
  {
    hide CompleteStep; hide AllWritten; hide Fetches; hide Sent;
    CompleteChanges(c, st, st', s, i);
    SameSent(c, st, st');
  }

  lemma StepWorks(c: Setup, st: State, st': State)
    requires WellFormed(c) && Next(c, st, st')
    ensures Work(c, st') == Work(c, st) + 1
  {
    hide WellFormed; hide Work; hide FetchStep; hide RunStep; hide WriteStep; hide CompleteStep;
    if i: nat, k :| FetchStep(c, st, st', i, k) {
      FetchWorks(c, st, st', i, k);
    } else if i: nat :| RunStep(c, st, st', i) {
      ExecuteWorks(c, st, st', i);
    } else if i: nat, k, v :| WriteStep(c, st, st', i, k, v) {
      WriteWorks(c, st, st', i, k, v);
    } else {
      var s, i: nat :| CompleteStep(c, st, st', s, i);
      CompleteWorks(c, st, st', s, i);
    }
  }

  lemma NoWork(c: Setup)
    ensures Work(c, Init(c)) == 0
  {
    assert Fetches(map[]) == {};
    assert Sent(c, Init(c)) == {};
  }

  lemma {:induction false} RunWork(c: Setup, run: seq<State>)
    requires WellFormed(c) && IsRun(c, run)
    ensures Work(c, Last(run)) == |run| - 1
  {
    hide Next; hide WellFormed; hide Work; hide Init;
    if |run| == 1 {
      NoWork(c);
    } else {
      var n := |run| - 1;
      assert IsRun(c, run[..n]);
      RunWork(c, run[..n]);
      assert Next(c, run[n - 1], run[n - 1 + 1]);
      StepWorks(c, run[n - 1], run[n]);
    }
  }

  /** Every run is finite, whatever the interleaving. */
  lemma RunBounded(c: Setup, run: seq<State>)
    requires WellFormed(c) && IsRun(c, run)
    ensures |run| - 1 <= Budget(c)
  {
    hide Next; hide WellFormed; hide Work; hide Budget; hide Ordered;
    RunWork(c, run);
    RunOrdered(c, run);
    WorkBounded(c, Last(run));
  }

  ghost predicate Halted(c: Setup, st: State) {
    forall st' :: !Next(c, st, st')
  }

  // ---- The lock manager of a replica ----

  /** In the dispatch loop of a replica, whose table belongs to no shard, the published
      transactions are exactly those that declare a key and whose earlier conflicting ones have
      completed at this replica. */
  lemma ManagerGrants(c: Setup, s: Shard, done: set<Part>, m: Locks.LockManager, completed: set<nat>, i: nat)
    requires Locks.Steady(m, completed) && m.want == Locks.Demands(c.job.block, None, c.job.home)
    requires forall j :: j in completed <==> (s, j) in done
    ensures i in Locks.Participants(m.enqueued) <==> (exists k :: Declares(c.job, i, k)) && Granted(c, done, s, i)
  {
    hide DeclaredReads; hide DeclaredWrites; hide Locks.Steady;
    Locks.PublishedExactly(m, completed, i);
    DemandShape(c);
    if i < |c.job.block| {
      GrantedIsClear(c, s, done, m.want, completed, i);
      if m.want[i] != map[] {
        var k :| k in m.want[i];
        assert Declares(c.job, i, k);
      }
    }
  }

  lemma DemandShape(c: Setup)
    ensures var want := Locks.Demands(c.job.block, None, c.job.home);
            && |want| == |c.job.block|
            && (forall i: nat, k :: i < |want| ==> (k in want[i] <==> Declares(c.job, i, k)))
            && (forall i: nat, k :: i < |want| && k in want[i] ==> (want[i][k] <==> Writes(c.job, i, k)))
  {
  }

  lemma GrantedIsClear(c: Setup, s: Shard, done: set<Part>, want: seq<Locks.Demand>, completed: set<nat>, i: nat)
    requires want == Locks.Demands(c.job.block, None, c.job.home) && i < |want|
    requires forall j :: j in completed <==> (s, j) in done
    ensures Granted(c, done, s, i) <==> forall j: nat, k :: j < i && Locks.Conflict(want, j, i, k) ==> j in completed
  {
    DemandShape(c);
    hide DeclaredReads; hide DeclaredWrites; hide Locks.Demands;
    if Granted(c, done, s, i) {
      forall j: nat, k | j < i && Locks.Conflict(want, j, i, k)
        ensures j in completed
      {
        assert Declares(c.job, j, k) && Declares(c.job, i, k);
      }
    } else {
      var j: nat, k :| j < i && Declares(c.job, j, k) && Declares(c.job, i, k)
        && (Writes(c.job, j, k) || Writes(c.job, i, k)) && (s, j) !in done;
      assert Locks.Conflict(want, j, i, k);
    }
  }

  // ---- A violation stops its shard ----

  /** Nothing of the shard's own transactions differs, nor what it completed. */
  ghost predicate SameWork(c: Setup, a: State, b: State, s: Shard) {
    && (forall i: nat :: i < |c.job.seat| && c.job.seat[i] == s ==> SameTx(a, b, i))
    && forall i: nat :: (s, i) in a.done <==> (s, i) in b.done
  }

  ghost predicate SameTx(a: State, b: State, i: nat) {
    FetchedBy(a, i) == FetchedBy(b, i) && (i in a.ran <==> i in b.ran) && (i in a.failed <==> i in b.failed)
  }

  ghost predicate SameWritten(c: Setup, a: State, b: State, s: Shard) {
    forall i: nat, k :: i < |c.job.block| && i < |c.job.seat| && c.job.seat[i] == s ==>
      (Written(c, a, i, k) <==> Written(c, b, i, k))
  }

  lemma StoppedRests(c: Setup, st: State, st': State, s: Shard)
    requires WellFormed(c) && Next(c, st, st') && Stopped(c, st, s)
    ensures SameWork(c, st, st', s) && SameWritten(c, st, st', s) && Stopped(c, st', s)
  {
    hide *;
    OthersWork(c, st, st', s);
    forall i: nat, k | i < |c.job.block| && i < |c.job.seat| && c.job.seat[i] == s
      ensures Written(c, st, i, k) <==> Written(c, st', i, k)
    {
      StoppedWrites(c, st, st', s, i, k);
    }
    RowsOf(c, st, st', s);
  }

  lemma RowsOf(c: Setup, st: State, st': State, s: Shard)
    requires forall i: nat, k :: i < |c.job.block| && i < |c.job.seat| && c.job.seat[i] == s ==>
      (Written(c, st, i, k) <==> Written(c, st', i, k))
    ensures SameWritten(c, st, st', s)
  {
    hide Written;
  }

  lemma OthersWork(c: Setup, st: State, st': State, s: Shard)
    requires Next(c, st, st') && Stopped(c, st, s)
    ensures SameWork(c, st, st', s) && Stopped(c, st', s)
  {
    if x: nat, k :| FetchStep(c, st, st', x, k) {
      FetchElsewhere(c, st, st', s, x, k);
    } else if x: nat :| RunStep(c, st, st', x) {
      RunElsewhere(c, st, st', s, x);
    } else if x: nat, k, v :| WriteStep(c, st, st', x, k, v) {
      hide Sends; hide IsNoop; hide Publish; hide Written;
    } else {
      var t, x: nat :| CompleteStep(c, st, st', t, x);
      hide Granted; hide AllWritten;
      assert t != s;
    }
  }

  lemma FetchElsewhere(c: Setup, st: State, st': State, s: Shard, x: nat, k: Key)
    requires FetchStep(c, st, st', x, k) && Stopped(c, st, s)
    ensures SameWork(c, st, st', s) && Stopped(c, st', s)
  {
    hide Granted; hide Predecessor; hide Available;
    assert c.job.seat[x] != s;
  }

  lemma RunElsewhere(c: Setup, st: State, st': State, s: Shard, x: nat)
    requires RunStep(c, st, st', x) && Stopped(c, st, s)
    ensures SameWork(c, st, st', s) && Stopped(c, st', s)
  {
    hide Granted; hide Execute; hide AllFetched; hide Image; hide WithinDeclaration;
    assert c.job.seat[x] != s;
    var j :| j in st.failed && j < |c.job.seat| && c.job.seat[j] == s;
    assert j in st'.failed;
  }

  lemma StoppedWrites(c: Setup, st: State, st': State, s: Shard, i: nat, k: Key)
    requires WellFormed(c) && Next(c, st, st') && Stopped(c, st, s) && i < |c.job.block| && i < |c.job.seat|
    requires c.job.seat[i] == s
    ensures Written(c, st, i, k) <==> Written(c, st', i, k)
  {
    hide Granted; hide Execute; hide Available; hide Sends; hide AllFetched; hide AllWritten; hide Image; hide Stopped;
    if x: nat, a, v :| WriteStep(c, st, st', x, a, v) {
      VersionsOrdered(c.height, i, c.height, x);
      assert Ver(c, x) != Ver(c, i);
    }
  }

  /** From a violation on, whatever the others do, the executing shard takes no step. */
  lemma {:induction false} StoppedForGood(c: Setup, run: seq<State>, p: nat, q: nat, s: Shard)
    requires WellFormed(c) && IsRun(c, run) && p <= q < |run| && Stopped(c, run[p], s)
    ensures SameWork(c, run[p], run[q], s) && SameWritten(c, run[p], run[q], s) && Stopped(c, run[q], s)
  {
    hide Next; hide Stopped; hide WellFormed; hide Written;
    if p < q {
      StoppedForGood(c, run, p, q - 1, s);
      assert Next(c, run[q - 1], run[(q - 1) + 1]);
      StoppedRests(c, run[q - 1], run[q], s);
    }
  }

  /** And it stops nobody else. */
  lemma OthersGoOn(c: Setup, st: State, i: nat, s: Shard)
    requires i < |c.job.seat| && c.job.seat[i] != s
    ensures Stopped(c, st.(failed := st.failed + {i}), s) <==> Stopped(c, st, s)
  {
    var after := st.(failed := st.failed + {i});
    if Stopped(c, st, s) {
      var j :| j in st.failed && j < |c.job.seat| && c.job.seat[j] == s;
      assert j in after.failed;
    }
  }

  // ---- What never changes ----

  /** A published version keeps its value, in every step from any state. */
  lemma VersionStays(c: Setup, st: State, st': State, k: Key, v: nat)
    requires Next(c, st, st') && (k, v) in st.published
    ensures (k, v) in st'.published && st'.published[(k, v)] == st.published[(k, v)]
  {
    hide Granted; hide Execute; hide Available; hide Sends; hide AllFetched; hide AllWritten; hide Image; hide Stopped;
    hide Written; hide IsNoop; hide Predecessor; hide Version;
  }

  lemma {:induction false} VersionsStay(c: Setup, run: seq<State>, p: nat, q: nat, k: Key, v: nat)
    requires IsRun(c, run) && p <= q < |run| && (k, v) in run[p].published
    ensures (k, v) in run[q].published && run[q].published[(k, v)] == run[p].published[(k, v)]
  {
    hide Next;
    if p < q {
      VersionsStay(c, run, p, q - 1, k, v);
      assert Next(c, run[q - 1], run[(q - 1) + 1]);
      VersionStays(c, run[q - 1], run[q], k, v);
    }
  }

  /** Whoever fetched for a transaction, executed it or completed it held its locks: at that replica
      every earlier conflicting transaction is completed. */
  ghost predicate LocksHeld(c: Setup, st: State) {
    && (forall i: nat :: i < |c.job.seat| && (i in st.fetched || i in st.ran || i in st.failed) ==>
      Granted(c, st.done, c.job.seat[i], i))
    && forall s, i: nat :: (s, i) in st.done ==> Granted(c, st.done, s, i)
  }

  lemma LocksStay(c: Setup, done: set<Part>, done': set<Part>, s: Shard, i: nat)
    requires Granted(c, done, s, i) && done <= done'
    ensures Granted(c, done', s, i)
  {
  }

  lemma LocksNext(c: Setup, st: State, st': State)
    requires LocksHeld(c, st) && Next(c, st, st')
    ensures LocksHeld(c, st')
  {
    hide Execute; hide Available; hide Sends; hide AllFetched; hide AllWritten; hide Image; hide Stopped; hide Written;
    hide IsNoop; hide Predecessor; hide Publish; hide Granted; hide WithinDeclaration;
    assert st.done <= st'.done;
    forall s, i: nat | Granted(c, st.done, s, i)
      ensures Granted(c, st'.done, s, i)
    {
      LocksStay(c, st.done, st'.done, s, i);
    }
    if x: nat, k :| FetchStep(c, st, st', x, k) {
      assert Granted(c, st.done, c.job.seat[x], x);
    } else if x: nat :| RunStep(c, st, st', x) {
      assert Granted(c, st.done, c.job.seat[x], x);
    } else if x: nat, k, v :| WriteStep(c, st, st', x, k, v) {
      assert st'.done == st.done;
    } else {
      var t, x: nat :| CompleteStep(c, st, st', t, x);
      assert Granted(c, st.done, t, x);
    }
  }

  lemma {:induction false} LocksRespected(c: Setup, run: seq<State>)
    requires IsRun(c, run)
    ensures LocksHeld(c, Last(run))
  {
    hide Next; hide LocksHeld;
    if |run| == 1 {
      NoLocks(c);
    } else {
      var n := |run| - 1;
      LocksRespected(c, run[..n]);
      assert Next(c, run[n - 1], run[(n - 1) + 1]);
      LocksNext(c, run[n - 1], run[n]);
    }
  }

  lemma NoLocks(c: Setup)
    ensures LocksHeld(c, Init(c))
  {
  }
}
