/** Stateless Calvin against the serial run at the level of rows: which access lists make every
    fetched value, outcome and materialized row the serial one, failed writes dropped, and what
    the durable state then holds. */
module StatelessRows {
  import opened Basics
  import opened Transactions
  import opened SerialRows
  import opened CalvinPlan
  import opened CalvinStateless

  // ---- The condition ----

  /** Two keys are names of one row. */
  ghost predicate SamePlace(c: Job, a: Key, b: Key) {
    a in c.home && b in c.home && Where(c, a) == Where(c, b)
  }

  /** The transaction declares a write to another name of the row of `k`. */
  ghost predicate WritesOther(c: Job, j: nat, k: Key) {
    exists a :: a != k && Writes(c, j, a) && SamePlace(c, a, k)
  }

  /** The read whose value a transaction's row image has under the row name of `k`. */
  ghost function Stands(c: Job, i: nat, k: Key): Key
    requires i < |c.block| == |c.seat|
  {
    SlotKey(c, DeclaredReads(c.block[i]), c.seat[i], Qualify(c.seat[i], k))
  }

  /** The row image has a value under the row name of `k`. */
  ghost predicate HasSlot(c: Job, i: nat, k: Key)
    requires i < |c.block| == |c.seat|
  {
    Slotted(DeclaredReads(c.block[i]), c.seat[i], Qualify(c.seat[i], k))
  }

  /** The version of `k` before transaction `m` is up to date: nobody wrote the row by another
      name since it was produced, and it was right then. */
  ghost predicate Fresh(c: Job, m: nat, k: Key)
    requires m <= |c.block| == |c.seat|
    decreases m, 0
  {
    if m == 0 then true
    else if k in DeclaredWrites(c.block[m - 1]) then Good(c, m - 1, k)
    else !WritesOther(c, m - 1, k) && Fresh(c, m - 1, k)
  }

  /** The version that transaction `i` produces for `k` is right: a write by another name is
      stored before the one of `k`, which also counts it as its own, and a no-op repeats the
      row's own value. */
  ghost predicate Good(c: Job, i: nat, k: Key)
    requires i < |c.block| == |c.seat|
    decreases i, 1
  {
    && (WritesOther(c, i, k) ==> k.Plain? && forall a ::
      a != k && Writes(c, i, a) && SamePlace(c, a, k) ==> RankOf(c, a) < RankOf(c, k))
    && if HasSlot(c, i, k) then SamePlace(c, Stands(c, i, k), k) else Fresh(c, i, k)
  }

  /** Every declared read is shown by an up to date version of its own row. */
  ghost predicate ReadsRight(c: Job)
    requires |c.block| == |c.seat|
  {
    forall i: nat, k :: Reads(c, i, k) ==> SamePlace(c, Stands(c, i, k), k) && Fresh(c, i, Stands(c, i, k))
  }

  /** A plain key and a qualified form of it are written by one transaction only if they are one
      row. */
  ghost predicate BorrowsApart(c: Job) {
    forall i: nat, n, z :: Writes(c, i, Plain(n)) && Writes(c, i, Qualified(z, n))
      ==> SamePlace(c, Plain(n), Qualified(z, n))
  }

  ghost predicate Aligned(c: Job)
    requires |c.block| == |c.seat|
  {
    ReadsRight(c) && BorrowsApart(c)
  }

  // ---- Every value is then the serial one ----

  ghost function Serial(c: Job, m: nat, k: Key): Value
    requires m <= |c.block| && k in c.home
  {
    ValueAt(c, Dropping, m, Where(c, k))
  }

  /** A transaction has the serial outcome, or both leave the declaration. */
  ghost predicate SameVerdict(t: Tx, o: Outcome, serial: Outcome) {
    (WithinDeclaration(t, o) <==> WithinDeclaration(t, serial)) && (WithinDeclaration(t, o) ==> o == serial)
  }

  lemma SoundSeats(c: Job)
    requires Sound(c)
    ensures |c.block| == |c.seat|
  {
  }

  lemma ReadHasSlot(c: Job, i: nat, k: Key)
    requires |c.block| == |c.seat| && Reads(c, i, k)
    ensures HasSlot(c, i, k) && Stands(c, i, k) in DeclaredReads(c.block[i])
  {
    hide DeclaredReads;
    SlotKeyIs(c, DeclaredReads(c.block[i]), c.seat[i], Qualify(c.seat[i], k));
  }

  lemma PictureShows(c: Job, i: nat, k: Key)
    requires i < |c.block| == |c.seat|
    ensures Qualify(c.seat[i], k) in Picture(c, i) <==> HasSlot(c, i, k)
    ensures HasSlot(c, i, k)
      ==> Stands(c, i, k) in DeclaredReads(c.block[i])
          && Picture(c, i)[Qualify(c.seat[i], k)] == Val(c, i, Stands(c, i, k))
  {
    hide DeclaredReads; hide Val; hide Qualify; hide Image; hide SlotKey; hide Slotted;
    var values := map b | b in DeclaredReads(c.block[i]) :: Val(c, i, b);
    assert values.Keys == DeclaredReads(c.block[i]);
    ImageShows(c, c.seat[i], values, Qualify(c.seat[i], k));
    if HasSlot(c, i, k) {
      SlotKeyIs(c, DeclaredReads(c.block[i]), c.seat[i], Qualify(c.seat[i], k));
    }
  }

  lemma {:induction false} ValRight(c: Job, m: nat, k: Key)
    requires Sound(c) && Aligned(c) && m <= |c.block| && k in c.home && Fresh(c, m, k)
    ensures Val(c, m, k) == Serial(c, m, k)
    decreases m, 0
  {
    hide Sound; hide Aligned; hide Pub; hide Good; hide DeclaredWrites; hide ValueAt; hide WritesOther;
    SoundSeats(c);
    if m == 0 {
      StartValue(c, Dropping, Where(c, k));
    } else if k in DeclaredWrites(c.block[m - 1]) {
      PubRight(c, m - 1, k);
    } else {
      ValRight(c, m - 1, k);
      QuietStep(c, m - 1, k);
    }
  }

  /** A transaction that writes neither the key nor another name of its row leaves it. */
  lemma QuietStep(c: Job, i: nat, k: Key)
    requires i < |c.block| && k in c.home && !Writes(c, i, k) && !WritesOther(c, i, k)
    ensures Serial(c, i + 1, k) == Serial(c, i, k)
  {
    hide ValueAt; hide DeclaredWrites; hide Qualify;
    forall j: nat, a | i <= j < i + 1 && Writes(c, j, a)
      ensures !Lives(c, a, Where(c, k))
    {
      assert a != k;
      assert Lives(c, a, Where(c, k)) ==> SamePlace(c, a, k);
    }
    Untouched(c, Dropping, i, i + 1, Where(c, k));
  }

  lemma {:induction false} GotRight(c: Job, i: nat)
    requires Sound(c) && Aligned(c) && i < |c.block|
    ensures SameVerdict(c.block[i], Got(c, i), OutcomeAt(c, Dropping, i))
    decreases i, 2
  {
    hide Sound; hide Val; hide ValueAt; hide ViewAt; hide Execute; hide WithinDeclaration; hide Picture; hide Fresh;
    hide BorrowsApart; hide Stands; hide HasSlot; hide Where;
    SoundSeats(c);
    var before := ViewAt(c, Dropping, i);
    forall k | k in DeclaredReads(c.block[i])
      ensures Look(Picture(c, i), Row(Some(c.seat[i]), k)) == Look(before, Row(None, k))
    {
      assert Reads(c, i, k);
      ReadHasSlot(c, i, k);
      PictureShows(c, i, k);
      ValRight(c, i, Stands(c, i, k));
      ViewShows(c, Dropping, i, k);
    }
    ExecuteAgrees(c.block[i], Picture(c, i), Some(c.seat[i]), before, None);
  }

  lemma {:induction false} PubRight(c: Job, i: nat, k: Key)
    requires Sound(c) && Aligned(c) && i < |c.block| && k in c.home && Writes(c, i, k) && Good(c, i, k)
    ensures Pub(c, i, k) == Serial(c, i + 1, k)
    decreases i, 3
  {
    hide Sound; hide Got; hide OutcomeAt; hide ValueAt; hide Picture; hide Val; hide ReadsRight; hide HasSlot;
    hide Stands; hide Stored; hide Fresh; hide DeclaredWrites; hide DeclaredReads; hide WithinDeclaration;
    hide Qualify;
    SoundSeats(c);
    GotRight(c, i);
    ValueStep(c, Dropping, i, Where(c, k));
    if Lost(c, i, k) {
      NoopRight(c, i, k);
      LostStores(c, i, k);
    } else {
      SentStores(c, i, k);
    }
  }

  /** What a no-op repeats is the row's serial value. */
  lemma {:induction false} NoopRight(c: Job, i: nat, k: Key)
    requires Sound(c) && Aligned(c) && i < |c.block| && k in c.home && Good(c, i, k) && Lost(c, i, k)
    ensures Pub(c, i, k) == Serial(c, i, k)
    decreases i, 2
  {
    hide Sound; hide Got; hide ValueAt; hide Picture; hide Val; hide BorrowsApart; hide HasSlot; hide Stands;
    hide Fresh; hide WritesOther; hide Where; hide Lost; hide Qualify;
    SoundSeats(c);
    PictureShows(c, i, k);
    if HasSlot(c, i, k) {
      var b := Stands(c, i, k);
      assert Reads(c, i, b);
      StandsAlone(c, i, k);
      ValRight(c, i, b);
    } else {
      ValRight(c, i, k);
    }
  }

  /** The read that stands for a row name stands for itself. */
  lemma StandsAlone(c: Job, i: nat, k: Key)
    requires i < |c.block| == |c.seat| && HasSlot(c, i, k)
    ensures Stands(c, i, Stands(c, i, k)) == Stands(c, i, k)
  {
    hide DeclaredReads;
    SlotKeyIs(c, DeclaredReads(c.block[i]), c.seat[i], Qualify(c.seat[i], k));
  }

  /** The other name of the row of a plain key is a qualified form of it. */
  lemma OtherName(c: Job, a: Key, k: Key)
    requires SamePlace(c, a, k) && a != k && k.Plain?
    ensures a.Qualified? && a == Qualified(a.shard, k.name)
  {
  }

  lemma NameCounts(c: Job, i: nat, w: Rows, k: Key, a: Key)
    requires k in c.home && a in w && Lives(c, a, Where(c, k)) && Writes(c, i, a) && (WritesOther(c, i, k) ==> k.Plain?)
    ensures IsWritten(w, k)
  {
    hide Writes;
    assert SamePlace(c, a, k);
    if k in w {
      assert CountsAs(w, k, w[k]);
    } else {
      assert WritesOther(c, i, k);
      OtherName(c, a, k);
      assert CountsAs(w, k, w[a]);
    }
  }

  /** If the write of `k` has no effect, the transaction does not change the row of `k`. */
  lemma LostStores(c: Job, i: nat, k: Key)
    requires Sound(c) && BorrowsApart(c) && i < |c.block| && k in c.home && Writes(c, i, k) && Good(c, i, k)
    requires Lost(c, i, k)
    requires SameVerdict(c.block[i], Got(c, i), OutcomeAt(c, Dropping, i))
    ensures forall prior ::
        Stored(c, Effect(c.block[i], OutcomeAt(c, Dropping, i), Dropping), Where(c, k), prior) == prior
  {
    hide Sound; hide Got; hide OutcomeAt; hide HasSlot; hide Stands; hide Fresh; hide DeclaredWrites;
    hide DeclaredReads; hide Stored;
    SoundSeats(c);
    var w := Effect(c.block[i], OutcomeAt(c, Dropping, i), Dropping);
    forall a | a in w
      ensures !Lives(c, a, Where(c, k))
    {
      assert a in w.Keys;
      assert Writes(c, i, a);
      if Lives(c, a, Where(c, k)) {
        NameCounts(c, i, w, k, a);
      }
    }
    forall prior
      ensures Stored(c, w, Where(c, k), prior) == prior
    {
      StoredNone(c, w, Where(c, k), prior);
    }
  }

  /** An effective write of `k` is what the row of `k` holds afterwards. */
  lemma SentStores(c: Job, i: nat, k: Key)
    requires Sound(c) && BorrowsApart(c) && i < |c.block| && k in c.home && Writes(c, i, k) && Good(c, i, k)
    requires !Lost(c, i, k)
    requires SameVerdict(c.block[i], Got(c, i), OutcomeAt(c, Dropping, i))
    ensures forall prior ::
        Stored(c, Effect(c.block[i], OutcomeAt(c, Dropping, i), Dropping), Where(c, k),
        prior) == SentValue(Got(c, i).writes, k)
  {
    hide Sound; hide Got; hide OutcomeAt; hide HasSlot; hide Stands; hide Fresh; hide DeclaredWrites;
    hide DeclaredReads; hide Stored; hide RankOf;
    SoundSeats(c);
    var w := Got(c, i).writes;
    assert Effect(c.block[i], OutcomeAt(c, Dropping, i), Dropping) == w;
    assert forall a :: a in w ==> a in w.Keys && Writes(c, i, a);
    var v := SentValue(w, k);
    assert CountsAs(w, k, v);
    var b := if k in w then k else Borrowed(c, i, w, k, v);
    forall a | a in w && Lives(c, a, Where(c, k)) && a != b
      ensures RankOf(c, a) < RankOf(c, b)
    {
      TwoNames(c, a, Where(c, k));
      TwoNames(c, b, Where(c, k));
      TwoNames(c, k, Where(c, k));
      assert SamePlace(c, a, k);
    }
    assert ComesLast(c, w, Where(c, k), b);
    forall prior
      ensures Stored(c, w, Where(c, k), prior) == v
    {
      StoredLast(c, w, Where(c, k), b, prior);
    }
  }

  /** The qualified form whose value a plain key borrows. */
  ghost function Borrowed(c: Job, i: nat, w: Rows, k: Key, v: Value): (b: Key)
    requires BorrowsApart(c) && Writes(c, i, k) && (forall a :: a in w ==> Writes(c, i, a)) && k !in w
    requires CountsAs(w, k, v)
    ensures b in w && w[b] == v && SamePlace(c, k, b) && Lives(c, b, Where(c, k))
  {
    var z :| Qualified(z, k.name) in w && v == w[Qualified(z, k.name)];
    assert SamePlace(c, Plain(k.name), Qualified(z, k.name));
    Qualified(z, k.name)
  }

  lemma OneForm(c: Job, i: nat, w: Rows, k: Key, u: Value, v: Value)
    requires BorrowsApart(c) && Writes(c, i, k) && (forall a :: a in w ==> Writes(c, i, a)) && k !in w
    requires CountsAs(w, k, u) && CountsAs(w, k, v)
    ensures u == v
  {
    hide Writes;
    var a, b := Borrowed(c, i, w, k, u), Borrowed(c, i, w, k, v);
    TwoNames(c, a, Where(c, k));
    TwoNames(c, b, Where(c, k));
    TwoNames(c, k, Where(c, k));
  }

  /** With aligned rows no key borrows from two others. */
  lemma AlignedIsUnambiguous(c: Job)
    requires Sound(c) && BorrowsApart(c)
    ensures Unambiguous(c)
  {
    hide Sound; hide Got; hide DeclaredReads; hide DeclaredWrites; hide OutcomeAt; hide BorrowsApart; hide CountsAs;
    forall i: nat, k, u, v | i < |c.block| == |c.seat| && WithinDeclaration(c.block[i], Got(c, i)) && Writes(c, i, k)
      && CountsAs(Got(c, i).writes, k, u) && CountsAs(Got(c, i).writes, k, v)
      ensures u == v
    {
      var w := Got(c, i).writes;
      forall a | a in w
        ensures Writes(c, i, a)
      {
        assert a in w.Keys;
      }
      if k in w {
        Itself(w, k, u);
        Itself(w, k, v);
      } else {
        OneForm(c, i, w, k, u, v);
      }
    }
  }

  lemma Itself(w: Rows, k: Key, v: Value)
    requires k in w && CountsAs(w, k, v)
    ensures v == w[k]
  {
  }

  // ---- What the homes store ----

  /** What a transaction effectively sends. */
  ghost function SentRows(c: Job, i: nat): Rows
    requires i < |c.block| == |c.seat|
  {
    map k | k in DeclaredWrites(c.block[i]) && !Lost(c, i, k) :: Pub(c, i, k)
  }

  /** A key the transaction wrote is sent with its value; any other key sent borrows from one. */
  lemma SentIs(c: Job, i: nat, k: Key)
    requires Sound(c) && BorrowsApart(c) && i < |c.block| && WithinDeclaration(c.block[i], Got(c, i))
    requires Got(c, i).success
    ensures k in Got(c, i).writes ==> k in SentRows(c, i) && SentRows(c, i)[k] == Got(c, i).writes[k]
    ensures k in SentRows(c, i) && k !in Got(c, i).writes ==>
              exists b :: b in Got(c, i).writes && Got(c, i).writes[b] == SentRows(c, i)[k] && SamePlace(c, k, b)
  {
    hide Sound; hide Got; hide Val; hide Picture; hide DeclaredReads; hide DeclaredWrites; hide BorrowsApart;
    SoundSeats(c);
    var w := Got(c, i).writes;
    if k in w {
      assert k in w.Keys;
      assert CountsAs(w, k, w[k]);
    } else if k in SentRows(c, i) {
      forall a | a in w
        ensures Writes(c, i, a)
      {
        assert a in w.Keys;
      }
      var v := SentValue(w, k);
      hide CountsAs;
      assert CountsAs(w, k, v);
      var b := Borrowed(c, i, w, k, v);
    }
  }

  /** At every place the rows sent store what the writes would. */
  lemma SentStoresSame(c: Job, i: nat, p: Place, prior: Value)
    requires Sound(c) && BorrowsApart(c) && i < |c.block|
    requires SameVerdict(c.block[i], Got(c, i), OutcomeAt(c, Dropping, i))
    ensures |c.block| == |c.seat|
    ensures Stored(c, SentRows(c, i), p, prior) == Stored(c, Effect(c.block[i], OutcomeAt(c, Dropping, i), Dropping),
        p, prior)
  {
    hide Sound; hide Got; hide OutcomeAt; hide Pub; hide DeclaredReads; hide DeclaredWrites; hide BorrowsApart;
    hide WithinDeclaration; hide IsWritten;
    SoundSeats(c);
    var o := Got(c, i);
    if WithinDeclaration(c.block[i], o) && o.success {
      hide SentRows; hide Lost;
      var plain := Plain(p.1.name);
      SentIs(c, i, p.1);
      SentIs(c, i, plain);
      NamesOnly(c, SentRows(c, i), o.writes, p, prior);
    } else {
      assert SentRows(c, i) == map[];
    }
  }

  lemma NamesOnly(c: Job, sent: Rows, w: Rows, p: Place, prior: Value)
    requires forall k :: (k == p.1 || k == Plain(p.1.name)) && k in w ==> k in sent && sent[k] == w[k]
    requires forall k ::
      (k == p.1 || k == Plain(p.1.name)) && k in sent && k !in w ==> exists b ::
        b in w && w[b] == sent[k] && SamePlace(c, k, b)
    ensures Stored(c, sent, p, prior) == Stored(c, w, p, prior)
  {
    var plain := Plain(p.1.name);
    if plain in sent && plain !in w && Lives(c, plain, p) {
      var b :| b in w && w[b] == sent[plain] && SamePlace(c, plain, b);
      TwoNames(c, b, p);
    }
    if p.1 in sent && p.1 !in w && Lives(c, p.1, p) {
      var b :| b in w && w[b] == sent[p.1] && SamePlace(c, p.1, b);
      TwoNames(c, b, p);
    }
  }

  /** The last transaction below `m` that sends an effective row for the place. */
  ghost function LastEffect(c: Job, m: nat, p: Place): Option<nat>
    requires m <= |c.block| == |c.seat|
  {
    if m == 0 then None
    else if exists k :: k in SentRows(c, m - 1) && Lives(c, k, p) then Some(m - 1)
    else LastEffect(c, m - 1, p)
  }

  lemma {:induction false} ValueByLastEffect(c: Job, m: nat, p: Place)
    requires Sound(c) && Aligned(c) && m <= |c.block|
    ensures match LastEffect(c, m, p)
            case None => ValueAt(c, Dropping, m, p) == Peek(c.bases, p) && forall i: nat, k ::
              i < m && k in SentRows(c, i) ==> !Lives(c, k, p)
            case Some(w) => w < m && (exists k :: k in SentRows(c, w) && Lives(c, k, p))
                            && ValueAt(c, Dropping, m, p) == Stored(c, SentRows(c, w), p, ValueAt(c, Dropping, w, p))
                            && forall i: nat, k :: w < i < m && k in SentRows(c, i) ==> !Lives(c, k, p)
  {
    hide Sound; hide ValueAt; hide SentRows; hide Stored; hide Lives; hide Aligned; hide Got; hide OutcomeAt;
    hide Peek; hide BorrowsApart; hide SameVerdict;
    SoundSeats(c);
    if m == 0 {
      StartValue(c, Dropping, p);
    } else {
      GotRight(c, m - 1);
      AlignedBorrows(c);
      SentStoresSame(c, m - 1, p, ValueAt(c, Dropping, m - 1, p));
      ValueStep(c, Dropping, m - 1, p);
      if !exists k :: k in SentRows(c, m - 1) && Lives(c, k, p) {
        StoredNone(c, SentRows(c, m - 1), p, ValueAt(c, Dropping, m - 1, p));
        ValueByLastEffect(c, m - 1, p);
      }
    }
  }

  lemma AlignedBorrows(c: Job)
    requires Sound(c) && Aligned(c)
    ensures BorrowsApart(c)
  {
  }

  /** Rows are ordered by version and then by key. */
  predicate Before(c: Job, x: WriteRow, y: WriteRow) {
    x.version < y.version || (x.version == y.version && RankOf(c, x.key) < RankOf(c, y.key))
  }

  ghost predicate Sorted(c: Job, rows: seq<WriteRow>) {
    forall p, q :: 0 <= p < q < |rows| ==> !Before(c, rows[q], rows[p])
  }

  /** `w` is the last effective row for the row name `r`. */
  ghost predicate Decides(c: Job, s: Shard, rows: seq<WriteRow>, r: Key, w: WriteRow) {
    && w in rows && !w.noop && Qualify(s, w.key) == r
    && forall x :: x in rows && !x.noop && Qualify(s, x.key) == r && x != w ==> Before(c, x, w)
  }

  ghost predicate NoEffect(s: Shard, rows: seq<WriteRow>, r: Key) {
    forall x :: x in rows && Qualify(s, x.key) == r ==> x.noop
  }

  /** Inserts a row behind all that are not after it. */
  method Insert(c: Job, sorted: seq<WriteRow>, row: WriteRow) returns (more: seq<WriteRow>)
    requires Sorted(c, sorted)
    ensures Sorted(c, more) && forall x :: x in more <==> x in sorted || x == row
  {
    hide RankOf;
    var p := |sorted|;
    while p > 0 && Before(c, row, sorted[p - 1])
      invariant 0 <= p <= |sorted|
      invariant forall q :: p <= q < |sorted| ==> Before(c, row, sorted[q])
    {
      p := p - 1;
    }
    more := sorted[..p] + [row] + sorted[p..];
    assert forall q :: 0 <= q < |more| ==> more[q] == if q < p then sorted[q] else if q == p then row
      else sorted[q - 1];
    forall x
      ensures x in more <==> x in sorted || x == row
    {
      if x in sorted {
        var q :| 0 <= q < |sorted| && sorted[q] == x;
        assert more[if q < p then q else q + 1] == x;
      }
      assert more[p] == row;
    }
  }

  method SortRows(c: Job, rows: seq<WriteRow>) returns (sorted: seq<WriteRow>)
    ensures Sorted(c, sorted) && forall x :: x in sorted <==> x in rows
  {
    sorted := [];
    hide Sorted;
    assert Sorted(c, sorted) by { NothingSorted(c); }
    for i := 0 to |rows|
      invariant Sorted(c, sorted) && forall x :: x in sorted <==> x in rows[..i]
    {
      assert rows[..i + 1] == rows[..i] + [rows[i]];
      sorted := Insert(c, sorted, rows[i]);
    }
    assert rows[..|rows|] == rows;
  }

  lemma NothingSorted(c: Job)
    ensures Sorted(c, [])
  {
  }

  /** The last effective row for `r` among the first `n`. */
  ghost function LastRow(s: Shard, rows: seq<WriteRow>, n: nat, r: Key): Option<nat>
    requires n <= |rows|
  {
    if n == 0 then None
    else if Qualify(s, rows[n - 1].key) == r && !rows[n - 1].noop then Some(n - 1)
    else LastRow(s, rows, n - 1, r)
  }

  lemma {:induction false} LastRowIsLast(s: Shard, rows: seq<WriteRow>, n: nat, r: Key)
    requires n <= |rows|
    ensures match LastRow(s, rows, n, r)
            case None => forall q :: 0 <= q < n && Qualify(s, rows[q].key) == r ==> rows[q].noop
            case Some(p) => p < n && Qualify(s, rows[p].key) == r && !rows[p].noop && forall q ::
              p < q < n && Qualify(s, rows[q].key) == r ==> rows[q].noop
  {
    hide Qualify;
    if n > 0 && !(Qualify(s, rows[n - 1].key) == r && !rows[n - 1].noop) {
      LastRowIsLast(s, rows, n - 1, r);
    }
  }

  /** What became of the rows of a shard, started from `working`. */
  ghost predicate Applied(c: Job, s: Shard, working: Rows, rows: seq<WriteRow>, after: Rows) {
    && (forall r, w :: Decides(c, s, rows, r, w) ==> r in after && after[r] == w.value)
    && (forall r :: NoEffect(s, rows, r) ==> (r in after <==> r in working) && (r in after ==> after[r] == working[r]))
  }

  /** `calvinStatelessApplyOwnedWrites`: each row name ends with its effective row of greatest
      version, the last in key order, and row names without one stay as they were. */
  method ApplyOwnedWrites(c: Job, s: Shard, working: Rows, rows: seq<WriteRow>) returns (after: Rows)
    ensures Applied(c, s, working, rows, after)
  {
    var ordered := SortRows(c, rows);
    hide Sorted; hide Decides; hide Qualify;
    after := working;
    for n := 0 to |ordered|
      invariant forall r :: match LastRow(s, ordered, n, r)
                            case None => (r in after <==> r in working) && (r in after ==> after[r] == working[r])
                            case Some(p) => p < n && r in after && after[r] == ordered[p].value
    {
      if !ordered[n].noop {
        after := after[Qualify(s, ordered[n].key) := ordered[n].value];
      }
    }
    forall r, w | Decides(c, s, rows, r, w)
      ensures r in after && after[r] == w.value
    {
      DecidingRow(c, s, rows, ordered, r, w);
    }
    forall r | NoEffect(s, rows, r)
      ensures LastRow(s, ordered, |ordered|, r).None?
    {
      NoRow(s, rows, ordered, r);
    }
  }

  lemma NoRow(s: Shard, rows: seq<WriteRow>, ordered: seq<WriteRow>, r: Key)
    requires NoEffect(s, rows, r) && forall x :: x in ordered <==> x in rows
    ensures LastRow(s, ordered, |ordered|, r).None?
  {
    hide Qualify;
    assert forall q :: 0 <= q < |ordered| ==> ordered[q] in rows;
    LastRowIsLast(s, ordered, |ordered|, r);
  }

  lemma DecidingRow(c: Job, s: Shard, rows: seq<WriteRow>, ordered: seq<WriteRow>, r: Key, w: WriteRow)
    requires Sorted(c, ordered) && (forall x :: x in ordered <==> x in rows) && Decides(c, s, rows, r, w)
    ensures LastRow(s, ordered, |ordered|, r).Some? && LastRow(s, ordered, |ordered|, r).value < |ordered|
    ensures ordered[LastRow(s, ordered, |ordered|, r).value] == w
  {
    hide Qualify; hide RankOf;
    LastRowIsLast(s, ordered, |ordered|, r);
    assert w in ordered;
    var at :| 0 <= at < |ordered| && ordered[at] == w;
    var p := LastRow(s, ordered, |ordered|, r).value;
    assert ordered[p] in rows;
    assert at <= p;
  }

  /** The rows a home has when it materializes, in any order: those sent to it and its own, all
      for its keys and none of the effective ones missing. */
  ghost predicate Delivered(c: Setup, st: State, s: Shard, rows: seq<WriteRow>) {
    && (forall r :: r in rows ==> r in st.rows && At(c.job, r.key, s))
    && (forall r :: r in st.rows && At(c.job, r.key, s) && !r.noop ==> r in rows)
  }

  ghost predicate AllDone(c: Setup, st: State) {
    forall i: nat :: i < |c.job.block| ==> AllWritten(c, st, i)
  }

  /** An effective row is one that its transaction sends. */
  lemma RowSender(c: Setup, st: State, x: WriteRow) returns (i: nat)
    requires |c.job.block| == |c.job.seat| && Agrees(c, st) && x in st.rows
    ensures i < |c.job.block| && i in st.ran && Writes(c.job, i, x.key) && x == RowOf(c, i, x.key)
    ensures x.version == Ver(c, i) && (!x.noop ==> x.key in SentRows(c.job, i) && x.value == SentRows(c.job, i)[x.key])
  {
    hide Val; hide Pub; hide Got; hide Lost; hide DeclaredWrites; hide WithinDeclaration; hide Ver;
    i :| i in st.ran && Writes(c.job, i, x.key) && x == RowOf(c, i, x.key);
  }

  /** Every effective write has its row. */
  lemma RowThere(c: Setup, st: State, i: nat, k: Key)
    requires WellFormed(c) && Agrees(c, st) && AllDone(c, st) && i < |c.job.block| && k in SentRows(c.job, i)
    ensures RowOf(c, i, k) in st.rows && RowOf(c, i, k) == WriteRow(k, SentRows(c.job, i)[k], Ver(c, i), false)
  {
    hide WellFormed; hide Val; hide Pub; hide Got; hide Lost; hide DeclaredWrites; hide WithinDeclaration; hide Ver;
    SeatsFit(c);
    assert AllWritten(c, st, i) && Writes(c.job, i, k);
    assert Written(c, st, i, k);
    var v, n :| WriteRow(k, v, Ver(c, i), n) in st.rows;
    var j := RowSender(c, st, WriteRow(k, v, Ver(c, i), n));
    VersionsDistinct(c, i, j);
  }

  /** The row of the last effective transaction for a place decides it. */
  lemma LastDecides(c: Setup, st: State, s: Shard, rows: seq<WriteRow>, p: Place, w: nat, k: Key)
    requires WellFormed(c) && Agrees(c, st) && AllDone(c, st) && Delivered(c, st, s, rows) && p.0 == s
    requires w < |c.job.block| && ComesLast(c.job, SentRows(c.job, w), p, k)
    requires forall i: nat, b :: w < i < |c.job.block| && b in SentRows(c.job, i) ==> !Lives(c.job, b, p)
    ensures Decides(c.job, s, rows, p.1, WriteRow(k, SentRows(c.job, w)[k], Ver(c, w), false))
  {
    hide WellFormed; hide Agrees; hide SentRows; hide AllDone; hide Ver; hide RankOf; hide Qualify;
    SeatsFit(c);
    RowThere(c, st, w, k);
    var row := RowOf(c, w, k);
    hide RowOf;
    assert At(c.job, k, s);
    forall x | x in rows && !x.noop && Qualify(s, x.key) == p.1 && x != row
      ensures Before(c.job, x, row)
    {
      var i := RowSender(c, st, x);
      assert Lives(c.job, x.key, p);
      VersionsDistinct(c, i, w);
      if i == w {
        SameSender(c, w, x, k);
      }
    }
  }

  lemma SameSender(c: Setup, w: nat, x: WriteRow, k: Key)
    requires |c.job.block| == |c.job.seat| && w < |c.job.block| && x == RowOf(c, w, x.key) && x != RowOf(c, w, k)
    ensures x.key != k
  {
  }

  /** A home's materialized row is the serial one, and it has one exactly if some transaction
      effectively wrote the row. */
  lemma MaterializesSerial(c: Setup, st: State, s: Shard, rows: seq<WriteRow>, after: Rows, r: Key)
    requires WellFormed(c) && Aligned(c.job) && Agrees(c, st) && AllDone(c, st) && Delivered(c, st, s, rows)
    requires Applied(c.job, s, map[], rows, after)
    ensures r in after <==> LastEffect(c.job, |c.job.block|, (s, r)).Some?
    ensures r in after ==> after[r] == ValueAt(c.job, Dropping, |c.job.block|, (s, r))
    ensures r !in after ==> Peek(c.job.bases, (s, r)) == ValueAt(c.job, Dropping, |c.job.block|, (s, r))
  {
    assert Sound(c.job);
    hide WellFormed; hide Sound; hide Aligned; hide Agrees; hide SentRows; hide AllDone; hide Ver; hide RankOf;
    hide ValueAt; hide LastEffect; hide Peek; hide Stored; hide Qualify;
    SeatsFit(c);
    var n, p := |c.job.block|, (s, r);
    ValueByLastEffect(c.job, n, p);
    match LastEffect(c.job, n, p)
    case None =>
      forall x | x in rows && Qualify(s, x.key) == r
        ensures x.noop
      {
        var i := RowSender(c, st, x);
        assert Lives(c.job, x.key, p);
      }
      assert NoEffect(s, rows, r);
    case Some(w) =>
      var a :| a in SentRows(c.job, w) && Lives(c.job, a, p);
      var k := SomeLast(c.job, SentRows(c.job, w), p, a);
      StoredLast(c.job, SentRows(c.job, w), p, k, ValueAt(c.job, Dropping, w, p));
      hide ComesLast; hide Delivered; hide Lives;
      assert k in SentRows(c.job, w) by { LastIsWritten(c.job, SentRows(c.job, w), p, k); }
      LastDecides(c, st, s, rows, p, w, k);
  }

  lemma LastIsWritten(c: Job, writes: Rows, p: Place, k: Key)
    requires ComesLast(c, writes, p, k)
    ensures k in writes
  {
  }

  // ---- End to end ----

  /** Every outcome is the serial one, failed writes dropped, and whatever rows a home gets in
      whatever order, its rows end with their serial values. */
  ghost predicate EndsSerial(c: Setup, st: State) {
    && (forall i :: i in st.ran ==> i < |c.job.block| && st.ran[i] == OutcomeAt(c.job, Dropping, i))
    && (forall s, rows, after, r :: Delivered(c, st, s, rows) && Applied(c.job, s, map[], rows, after)
          ==> (if r in after then after[r] else Peek(c.job.bases, (s, r))) == ValueAt(c.job, Dropping, |c.job.block|,
            (s, r)))
  }

  lemma FinishedIsDone(c: Setup, st: State)
    requires WellFormed(c) && Ordered(c, st) && Finished(c, st)
    ensures AllDone(c, st)
  {
    hide AllFetched; hide Written; hide Sound; hide Plannable; hide Ver;
    SeatsFit(c);
    forall i: nat | i < |c.job.block|
      ensures AllWritten(c, st, i)
    {
      assert (c.job.seat[i], i) in st.done;
    }
  }

  lemma RanIsSerial(c: Setup, st: State, i: nat)
    requires WellFormed(c) && Aligned(c.job) && Agrees(c, st) && i in st.ran
    ensures i < |c.job.block| && st.ran[i] == OutcomeAt(c.job, Dropping, i)
  {
    assert Sound(c.job);
    hide WellFormed; hide Sound; hide Aligned; hide Got; hide OutcomeAt; hide Val; hide Pub; hide RowOf;
    hide WithinDeclaration;
    GotRight(c.job, i);
  }

  /** What is known at the end of a run. */
  lemma RunFacts(c: Setup, run: seq<State>)
    requires WellFormed(c) && Aligned(c.job) && IsRun(c, run)
    ensures |c.job.block| == |c.job.seat| && Sound(c.job) && Agrees(c, Last(run)) && Ordered(c, Last(run))
  {
    assert Sound(c.job);
    hide WellFormed; hide Sound; hide Aligned; hide Next; hide Ordered; hide Agrees; hide Unambiguous;
    hide BorrowsApart; hide Init;
    SeatsFit(c);
    AlignedBorrows(c.job);
    AlignedIsUnambiguous(c.job);
    VersionChain(c, run);
    RunOrdered(c, run);
  }

  lemma RowsAreSerial(c: Setup, st: State)
    requires WellFormed(c) && Aligned(c.job) && Agrees(c, st) && AllDone(c, st)
    ensures EndsSerial(c, st)
  {
    hide WellFormed; hide Aligned; hide Agrees; hide AllDone; hide ValueAt; hide OutcomeAt; hide Delivered;
    hide Applied; hide Peek; hide LastEffect;
    SeatsFit(c);
    forall i | i in st.ran
      ensures i < |c.job.block| && st.ran[i] == OutcomeAt(c.job, Dropping, i)
    {
      RanIsSerial(c, st, i);
    }
    forall s, rows, after, r | Delivered(c, st, s, rows) && Applied(c.job, s, map[], rows, after)
      ensures (if r in after then after[r] else Peek(c.job.bases, (s, r))) == ValueAt(c.job, Dropping, |c.job.block|,
          (s, r))
    {
      MaterializesSerial(c, st, s, rows, after, r);
    }
  }

  lemma DoneRan(c: Setup, st: State)
    requires AllDone(c, st)
    ensures forall i: nat :: i < |c.job.block| ==> i in st.ran
  {
    hide Written; hide Writes;
    forall i: nat | i < |c.job.block|
      ensures i in st.ran
    {
      assert AllWritten(c, st, i);
    }
  }

  /** After any finished run, whatever the arrival order of the rows, every outcome and every row
      of every home is the serial one, failed writes dropped. */
  lemma StatelessSerial(c: Setup, run: seq<State>)
    requires WellFormed(c) && Aligned(c.job) && IsRun(c, run) && Finished(c, Last(run))
    ensures EndsSerial(c, Last(run)) && forall i: nat :: i < |c.job.block| ==> i in Last(run).ran
  {
    hide WellFormed; hide Sound; hide Aligned; hide Next; hide Ordered; hide Agrees; hide Finished; hide AllDone;
    hide EndsSerial; hide Init;
    RunFacts(c, run);
    FinishedIsDone(c, Last(run));
    RowsAreSerial(c, Last(run));
    DoneRan(c, Last(run));
  }

  /** A run reports an access violation only if the serial run, failed writes dropped, has one. */
  lemma FailureIsSerial(c: Setup, run: seq<State>)
    requires WellFormed(c) && Aligned(c.job) && IsRun(c, run) && Last(run).failed != {}
    ensures !AllWithin(c.job, Dropping, |c.job.block|)
  {
    hide WellFormed; hide Sound; hide Aligned; hide Next; hide Got; hide OutcomeAt; hide Val; hide Pub; hide RowOf;
    hide WithinDeclaration; hide Unambiguous; hide BorrowsApart; hide Writes; hide Ver;
    RunFacts(c, run);
    var i :| i in Last(run).failed;
    GotRight(c.job, i);
  }

  /** The verdict: a run that can go no further reports a violation exactly if the serial run,
      failed writes dropped, has one, and otherwise every replica has completed everything. */
  lemma VerdictIsSerial(c: Setup, run: seq<State>)
    requires WellFormed(c) && Aligned(c.job) && IsRun(c, run) && Halted(c, Last(run))
    ensures Last(run).failed != {} <==> !AllWithin(c.job, Dropping, |c.job.block|)
    ensures Last(run).failed == {} ==> Finished(c, Last(run))
  {
    var st := Last(run);
    hide WellFormed; hide Aligned; hide Next; hide Ordered; hide Finished; hide OutcomeAt;
    RunOrdered(c, run);
    SeatsFit(c);
    if st.failed != {} {
      FailureIsSerial(c, run);
    } else if !Finished(c, st) {
      NotStuck(c, st);
    } else {
      StatelessSerial(c, run);
      FinishedWithin(c, run);
    }
  }

  lemma FinishedWithin(c: Setup, run: seq<State>)
    requires WellFormed(c) && Aligned(c.job) && IsRun(c, run)
    requires (forall i: nat :: i < |c.job.block| ==> i in Last(run).ran)
    ensures AllWithin(c.job, Dropping, |c.job.block|)
  {
    hide WellFormed; hide Sound; hide Aligned; hide Next; hide OutcomeAt; hide Got; hide Val; hide Pub; hide RowOf;
    hide Unambiguous; hide BorrowsApart; hide WithinDeclaration;
    RunFacts(c, run);
    forall i | 0 <= i < |c.job.block|
      ensures WithinDeclaration(c.job.block[i], OutcomeAt(c.job, Dropping, i))
    {
      RanIsSerial(c, Last(run), i);
    }
  }

  // ---- The durable state ----

  /** The durable value after the block: the executor starts from an empty row image, so a row
      counts as changed only if its value is not the empty string. */
  function DurableAfter(base: Rows, after: Rows, r: Key): Value {
    if Look(after, r) != Blank then after[r] else Look(base, r)
  }

  /** The durable value is the serial one exactly when the block does not end by emptying a row
      that held something: such a write is lost. */
  lemma DurableExactly(c: Setup, run: seq<State>, s: Shard, rows: seq<WriteRow>, after: Rows, r: Key)
    requires WellFormed(c) && Aligned(c.job) && IsRun(c, run) && Finished(c, Last(run))
    requires Delivered(c, Last(run), s, rows) && Applied(c.job, s, map[], rows, after)
    ensures var serial, before := ValueAt(c.job, Dropping, |c.job.block|, (s, r)), RowsAt(c.job.bases, s);
            DurableAfter(before, after, r) == serial <==> !(serial == Blank && Look(before, r) != Blank)
  {
    hide WellFormed; hide Aligned; hide Next; hide Finished; hide ValueAt; hide OutcomeAt; hide Delivered; hide Applied;
    StatelessSerial(c, run);
  }

  // ---- Against the serial executor, which keeps the writes of failed transactions ----

  /** If the transaction fails, storing its writes changes nothing. */
  ghost predicate Quiet(c: Job, i: nat)
    requires i < |c.block|
  {
    var o := OutcomeAt(c, Checked, i);
    WithinDeclaration(c.block[i], o) && !o.success ==> forall p ::
      Stored(c, o.writes, p, ValueAt(c, Checked, i, p)) == ValueAt(c, Checked, i, p)
  }

  ghost predicate SameState(c: Job, m: nat)
    requires m <= |c.block|
  {
    forall p :: ValueAt(c, Checked, m, p) == ValueAt(c, Dropping, m, p)
  }

  lemma SameOutcome(c: Job, i: nat)
    requires i < |c.block| && SameState(c, i)
    ensures OutcomeAt(c, Checked, i) == OutcomeAt(c, Dropping, i)
  {
    hide ValueAt; hide Execute;
    assert ViewAt(c, Checked, i) == ViewAt(c, Dropping, i);
  }

  lemma SameStep(c: Job, i: nat)
    requires i < |c.block| && SameState(c, i)
    ensures SameState(c, i + 1) <==> Quiet(c, i)
  {
    SameOutcome(c, i);
    hide ValueAt; hide OutcomeAt; hide WithinDeclaration; hide Stored;
    var o, n := OutcomeAt(c, Checked, i), i + 1;
    forall p
      ensures ValueAt(c, Checked, n, p) == Stored(c, Effect(c.block[i], o, Checked), p, ValueAt(c, Checked, i, p))
      ensures ValueAt(c, Dropping, n, p) == Stored(c, Effect(c.block[i], o, Dropping), p, ValueAt(c, Checked, i, p))
      ensures Stored(c, map[], p, ValueAt(c, Checked, i, p)) == ValueAt(c, Checked, i, p)
    {
      ValueStep(c, Checked, i, p);
      ValueStep(c, Dropping, i, p);
      StoredNone(c, map[], p, ValueAt(c, Checked, i, p));
    }
    if !Quiet(c, i) {
      var p :| Stored(c, o.writes, p, ValueAt(c, Checked, i, p)) != ValueAt(c, Checked, i, p);
      assert ValueAt(c, Checked, n, p) != ValueAt(c, Dropping, n, p);
    } else {
      forall p
        ensures ValueAt(c, Checked, n, p) == ValueAt(c, Dropping, n, p)
      {
        assert ValueAt(c, Checked, n, p) == Stored(c, Effect(c.block[i], o, Checked), p, ValueAt(c, Checked, i, p));
      }
    }
  }

  /** Dropping the writes of failed transactions reproduces the serial executor at every
      point of the block exactly when no failing transaction's writes change anything. */
  lemma {:induction false} DropsAgreeExactly(c: Job, n: nat)
    requires n <= |c.block|
    ensures (forall m: nat :: m <= n ==> SameState(c, m)) <==> forall i: nat :: i < n ==> Quiet(c, i)
  {
    hide Quiet; hide SameState;
    assert SameState(c, 0) by { SameAtStart(c); }
    if n > 0 {
      DropsAgreeExactly(c, n - 1);
      if forall m: nat :: m <= n - 1 ==> SameState(c, m) {
        SameStep(c, n - 1);
        assert n - 1 + 1 == n;
      } else {
        var m: nat :| m <= n - 1 && !SameState(c, m);
        assert m <= n;
      }
    }
  }

  lemma SameAtStart(c: Job)
    ensures SameState(c, 0)
  {
  }

  // ---- The same over programs ----

  /** The transaction alone, on any starting rows. */
  ghost function Alone(c: Job, t: Tx, bases: Stores): Job {
    c.(block := [t], seat := if c.seat == [] then [] else [c.seat[0]], bases := bases)
  }

  /** On no rows does the transaction fail after a write that changes a row. */
  ghost predicate Tame(c: Job, t: Tx) {
    forall bases: Stores :: Quiet(Alone(c, t, bases), 0)
  }

  /** A block made of transactions of `c`, as often and in whatever order, on any rows. */
  ghost predicate Draws(c: Job, d: Job) {
    d.home == c.home && d.rank == c.rank && forall i :: 0 <= i < |d.block| ==> d.block[i] in c.block
  }

  lemma StoredSame(c: Job, d: Job, writes: Rows, p: Place, prior: Value)
    requires d.home == c.home && d.rank == c.rank
    ensures Stored(d, writes, p, prior) == Stored(c, writes, p, prior)
  {
  }

  /** All rows after `n` transactions, as rows to start from. */
  ghost function RowsAfter(c: Job, n: nat): Stores
    requires n <= |c.block|
  {
    map s | s in c.bases.Keys + c.home.Values :: ShardAfter(c, n, s)
  }

  ghost function ShardAfter(c: Job, n: nat, s: Shard): Rows
    requires n <= |c.block|
  {
    RowsAt(c.bases, s)
    + map k | k in c.home && c.home[k] == s :: Qualify(s, k) := ValueAt(c, Checked, n, (s, Qualify(s, k)))
  }

  lemma RowsShow(c: Job, n: nat, p: Place)
    requires n <= |c.block|
    ensures Peek(RowsAfter(c, n), p) == ValueAt(c, Checked, n, p)
  {
    hide ValueAt; hide Stored;
    if k :| k in c.home && Lives(c, k, p) {
      assert p.0 in c.home.Values;
      assert Qualify(p.0, k) == p.1;
      assert p.1 in ShardAfter(c, n, p.0);
    } else {
      NeverStored(c, n, p);
      assert p.1 in ShardAfter(c, n, p.0) <==> p.1 in RowsAt(c.bases, p.0);
    }
  }

  lemma NeverStored(c: Job, n: nat, p: Place)
    requires n <= |c.block| && forall k :: k in c.home ==> !Lives(c, k, p)
    ensures ValueAt(c, Checked, n, p) == Peek(c.bases, p)
  {
    hide Stored; hide Peek; hide DeclaredReads; hide DeclaredWrites; hide ValueAt;
    Untouched(c, Checked, 0, n, p);
    StartValue(c, Checked, p);
  }

  /** Whether a transaction is quiet depends on the rows it finds alone. */
  lemma QuietAlone(c: Job, d: Job, i: nat)
    requires d.home == c.home && d.rank == c.rank && i < |d.block|
    ensures Quiet(d, i) <==> Quiet(Alone(c, d.block[i], RowsAfter(d, i)), 0)
  {
    hide RowsAfter; hide Stored; hide Execute; hide WithinDeclaration;
    var one := Alone(c, d.block[i], RowsAfter(d, i));
    forall p
      ensures ValueAt(one, Checked, 0, p) == ValueAt(d, Checked, i, p)
    {
      RowsShow(d, i, p);
      StartValue(one, Checked, p);
    }
    hide ValueAt;
    assert ViewAt(one, Checked, 0) == ViewAt(d, Checked, i);
    forall writes: Rows, p, prior
      ensures Stored(one, writes, p, prior) == Stored(d, writes, p, prior)
    {
      StoredSame(one, d, writes, p, prior);
    }
  }

  lemma AloneDraws(c: Job, t: Tx, bases: Stores)
    requires Sound(c) && t in c.block
    ensures Draws(c, Alone(c, t, bases)) && Sound(Alone(c, t, bases))
  {
    hide Canonical; hide DeclaredReads; hide DeclaredWrites;
    var i :| 0 <= i < |c.block| && c.block[i] == t;
    var one := Alone(c, t, bases);
    forall j: nat, k | Declares(one, j, k)
      ensures k in one.home
    {
      assert Declares(c, i, k);
    }
    assert forall k :: RankOf(one, k) == RankOf(c, k);
  }

  /** Stateless Calvin leaves the rows of the serial executor, for every block made of given
      transactions and all starting rows, exactly if none of them can fail after a write that
      changes a row. */
  lemma DropsAgreeForAll(c: Job)
    requires Sound(c)
    ensures (forall t :: t in c.block ==> Tame(c, t))
      <==> (forall d :: Draws(c, d) && Sound(d) ==> SameState(d, |d.block|))
    ensures (forall t :: t in c.block ==> Tame(c, t)) ==> forall d, i ::
      Draws(c, d) && Sound(d) && 0 <= i < |d.block| ==> OutcomeAt(d, Checked, i) == OutcomeAt(d, Dropping, i)
  {
    hide Quiet; hide SameState; hide Sound; hide OutcomeAt;
    if forall t :: t in c.block ==> Tame(c, t) {
      forall d | Draws(c, d) && Sound(d)
        ensures SameState(d, |d.block|)
        ensures forall i :: 0 <= i < |d.block| ==> OutcomeAt(d, Checked, i) == OutcomeAt(d, Dropping, i)
      {
        TameAgrees(c, d);
      }
    } else {
      var t :| t in c.block && !Tame(c, t);
      var bases: Stores :| !Quiet(Alone(c, t, bases), 0);
      AloneDraws(c, t, bases);
      AloneDiffers(c, t, bases);
    }
  }

  lemma TameAgrees(c: Job, d: Job)
    requires Draws(c, d) && forall t :: t in c.block ==> Tame(c, t)
    ensures SameState(d, |d.block|)
    ensures forall i :: 0 <= i < |d.block| ==> OutcomeAt(d, Checked, i) == OutcomeAt(d, Dropping, i)
  {
    hide Quiet; hide SameState; hide OutcomeAt; hide Alone;
    forall i: nat | i < |d.block|
      ensures Quiet(d, i)
    {
      assert Tame(c, d.block[i]);
      QuietAlone(c, d, i);
    }
    DropsAgreeExactly(d, |d.block|);
    forall i: nat | i < |d.block|
      ensures OutcomeAt(d, Checked, i) == OutcomeAt(d, Dropping, i)
    {
      assert SameState(d, i);
      SameOutcome(d, i);
    }
  }

  lemma AloneDiffers(c: Job, t: Tx, bases: Stores)
    requires !Quiet(Alone(c, t, bases), 0)
    ensures var one := Alone(c, t, bases); !SameState(one, |one.block|)
  {
    hide Quiet;
    var one := Alone(c, t, bases);
    SameAtStart(one);
    SameStep(one, 0);
  }

  /** A transfer from a fresh account with a wrong nonce: the serial executor first gives the
      account its default balance and then rejects the transaction. */
  ghost function FreshAccount(balance: Key, initial: Value, error: Value): Program {
    Program(3, (h: seq<Value>) => if |h| == 0 then Get(balance) else if |h| == 1 && h[0] == Blank then
      Put(balance, initial) else Halt(false, error))
  }

  lemma FreshAccountRuns(t: Tx, base: Rows, balance: Key, initial: Value, error: Value)
    requires t.program == FreshAccount(balance, initial, error) && Look(base, balance) == Blank
    ensures Execute(t, base, None) == Outcome(false, error, {balance}, map[balance := initial])
  {
    var p := t.program;
    assert p.next([]) == Get(balance) && p.next([Blank]) == Put(balance, initial)
      && p.next([Blank, initial]) == Halt(false, error);
    assert [] + [Blank] == [Blank] && [Blank] + [initial] == [Blank, initial];
    var last := Run(p, base, None, [Blank, initial], map[balance := initial]);
    assert last == Outcome(false, error, {}, map[balance := initial]);
    assert Run(p, base, None, [Blank], map[]) == last;
  }

  /** The condition is not idle: on such a block the serial executor and the stateless mode
      leave different states. */
  lemma FailedWriteIsLost(id: Id, s: Shard, balance: Key, initial: Value, error: Value)
    requires initial != Blank
    ensures var c := Job([Tx(id, [Access(balance, ReadWrite)], FreshAccount(balance, initial, error))],
        map[balance := s], map[], [s], map[]);
            && Sound(c) && AllWithin(c, Unchecked, 1)
            && ValueAt(c, Unchecked, 1, (s, Qualify(s, balance))) == initial
            && ValueAt(c, Dropping, 1, (s, Qualify(s, balance))) == Blank
  {
    var t := Tx(id, [Access(balance, ReadWrite)], FreshAccount(balance, initial, error));
    var c := Job([t], map[balance := s], map[], [s], map[]);
    assert t.accessList[0] in t.accessList;
    assert DeclaredReads(t) == {balance} && DeclaredWrites(t) == {balance};
    assert Sound(c);
    forall rule: Rule
      ensures OutcomeAt(c, rule, 0) == Outcome(false, error, {balance}, map[balance := initial])
    {
      FreshOutcome(c, t, s, rule, balance, initial, error);
    }
    hide OutcomeAt; hide DeclaredReads; hide DeclaredWrites; hide Sound;
    var p: Place := (s, Qualify(s, balance));
    ValueStep(c, Unchecked, 0, p);
    ValueStep(c, Dropping, 0, p);
    StartValue(c, Dropping, p);
    StoredLast(c, map[balance := initial], p, balance, ValueAt(c, Unchecked, 0, p));
    StoredNone(c, map[], p, Blank);
  }

  lemma FreshOutcome(c: Job, t: Tx, s: Shard, rule: Rule, balance: Key, initial: Value, error: Value)
    requires c.block == [t] && c.home == map[balance := s] && c.bases == map[]
    requires t.program == FreshAccount(balance, initial, error)
    ensures OutcomeAt(c, rule, 0) == Outcome(false, error, {balance}, map[balance := initial])
  {
    hide Execute; hide FreshAccount;
    ViewShows(c, rule, 0, balance);
    StartValue(c, rule, Where(c, balance));
    FreshAccountRuns(t, ViewAt(c, rule, 0), balance, initial, error);
  }
}
