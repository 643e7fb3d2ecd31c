/** The serial reference at the level of stored rows. Every key has a home shard, which stores
    it under its row name there; two names of one row therefore share their value, as they do
    in the serial executor. A block is executed one transaction after another, and the writes
    of one transaction are stored in the order of their key strings. */
module SerialRows {
  import opened Basics
  import opened Transactions

  /** Where a value is stored: a shard and a row name there. */
  type Place = (Shard, Key)

  type Stores = map<Shard, Rows>

  /** A block; the home of every key and its position in the order of key strings; a shard per
      transaction that executes it where its writes do not decide; all rows at block start. */
  datatype Job = Job(block: seq<Tx>, home: map<Key, Shard>, rank: map<Key, nat>, seat: seq<Shard>, bases: Stores)

  function RowsAt(m: Stores, s: Shard): Rows {
    if s in m then m[s] else map[]
  }

  function Peek(m: Stores, p: Place): Value {
    Look(RowsAt(m, p.0), p.1)
  }

  ghost predicate At(c: Job, k: Key, s: Shard) {
    k in c.home && c.home[k] == s
  }

  ghost predicate Declares(c: Job, i: nat, k: Key) {
    i < |c.block| && k in DeclaredKeys(c.block[i])
  }

  ghost predicate Writes(c: Job, i: nat, k: Key) {
    i < |c.block| && k in DeclaredWrites(c.block[i])
  }

  ghost predicate Reads(c: Job, i: nat, k: Key) {
    i < |c.block| && k in DeclaredReads(c.block[i])
  }

  /** The key is stored at this place. */
  predicate Lives(c: Job, k: Key, p: Place) {
    k in c.home && c.home[k] == p.0 && Qualify(p.0, k) == p.1
  }

  function Where(c: Job, k: Key): Place
    requires k in c.home
  {
    (c.home[k], Qualify(c.home[k], k))
  }

  function RankOf(c: Job, k: Key): nat {
    if k in c.rank then c.rank[k] else 0
  }

  /** Access lists are canonical, declared keys have homes, and key strings are ordered. */
  ghost predicate Sound(c: Job) {
    && |c.seat| == |c.block|
    && (forall i :: 0 <= i < |c.block| ==> Canonical(c.block[i]))
    && (forall i: nat, k :: Declares(c, i, k) ==> k in c.home)
    && (forall a, b :: a in c.home && b in c.home && a != b ==> RankOf(c, a) != RankOf(c, b))
  }

  /** Any block with canonical access lists and any order of its keys will do. */
  lemma OrderedIsSound(c: Job)
    requires |c.seat| == |c.block| && (forall i :: 0 <= i < |c.block| ==> Canonical(c.block[i]))
    requires (forall i: nat, k :: Declares(c, i, k) ==> k in c.home) && forall k :: k in c.home ==> k in c.rank
    requires forall a, b :: a in c.rank && b in c.rank && a != b ==> c.rank[a] != c.rank[b]
    ensures Sound(c)
  {
    hide Canonical;
  }

  // ---- Storing one write set ----

  /** The value at `p` once `writes` are stored, in key order, over `prior`. Only two keys can
      live at a place: its row name and the plain name that the shard qualifies to it. */
  function Stored(c: Job, writes: Rows, p: Place, prior: Value): Value {
    var plain := Plain(p.1.name);
    var q, n := p.1 in writes && Lives(c, p.1, p), plain in writes && Lives(c, plain, p);
    if n && (!q || RankOf(c, plain) > RankOf(c, p.1)) then writes[plain]
    else if q then writes[p.1]
    else prior
  }

  /** Of the written keys at `p`, `k` comes last. */
  ghost predicate ComesLast(c: Job, writes: Rows, p: Place, k: Key) {
    k in writes && Lives(c, k, p) && forall a :: a in writes && Lives(c, a, p) && a != k ==> RankOf(c, a) < RankOf(c, k)
  }

  /** The two names of a place. */
  lemma TwoNames(c: Job, k: Key, p: Place)
    requires Lives(c, k, p)
    ensures k == p.1 || k == Plain(p.1.name)
  {
  }

  lemma StoredLast(c: Job, writes: Rows, p: Place, k: Key, prior: Value)
    requires ComesLast(c, writes, p, k)
    ensures Stored(c, writes, p, prior) == writes[k]
  {
    TwoNames(c, k, p);
  }

  lemma StoredNone(c: Job, writes: Rows, p: Place, prior: Value)
    requires forall k :: k in writes ==> !Lives(c, k, p)
    ensures Stored(c, writes, p, prior) == prior
  {
  }

  /** Of two written names of a row one comes last. */
  lemma SomeLast(c: Job, writes: Rows, p: Place, a: Key) returns (k: Key)
    requires Sound(c) && a in writes && Lives(c, a, p)
    ensures ComesLast(c, writes, p, k)
  {
    hide RankOf; hide Canonical;
    TwoNames(c, a, p);
    var plain := Plain(p.1.name);
    if plain in writes && Lives(c, plain, p)
      && (p.1 in writes && Lives(c, p.1, p) ==> RankOf(c, p.1) < RankOf(c, plain)) {
      k := plain;
    } else {
      k := p.1;
    }
    forall b | b in writes && Lives(c, b, p) && b != k
      ensures RankOf(c, b) < RankOf(c, k)
    {
      TwoNames(c, b, p);
    }
  }

  // ---- The serial run ----

  /** Which writes count: all of them; those of transactions within their declaration; or those
      of successful transactions within their declaration. */
  datatype Rule = Unchecked | Checked | Dropping

  function Effect(t: Tx, o: Outcome, rule: Rule): Rows {
    if (rule != Unchecked && !WithinDeclaration(t, o)) || (rule == Dropping && !o.success) then map[] else o.writes
  }

  /** The value at a place after the first `n` transactions. */
  function ValueAt(c: Job, rule: Rule, n: nat, p: Place): Value
    requires n <= |c.block|
    decreases n, 0
  {
    if n == 0 then Peek(c.bases, p)
    else Stored(c, Effect(c.block[n - 1], OutcomeAt(c, rule, n - 1), rule), p, ValueAt(c, rule, n - 1, p))
  }

  /** What each key shows after the first `n` transactions. */
  function ViewAt(c: Job, rule: Rule, n: nat): Rows
    requires n <= |c.block|
    decreases n, 1
  {
    map k | k in c.home :: ValueAt(c, rule, n, Where(c, k))
  }

  function OutcomeAt(c: Job, rule: Rule, i: nat): Outcome
    requires i < |c.block|
    decreases i, 2
  {
    Execute(c.block[i], ViewAt(c, rule, i), None)
  }

  lemma ValueStep(c: Job, rule: Rule, i: nat, p: Place)
    requires i < |c.block|
    ensures ValueAt(c, rule, i + 1, p) == Stored(c, Effect(c.block[i], OutcomeAt(c, rule, i), rule), p,
        ValueAt(c, rule, i, p))
  {
  }

  lemma StartValue(c: Job, rule: Rule, p: Place)
    ensures ValueAt(c, rule, 0, p) == Peek(c.bases, p)
  {
  }

  lemma ViewShows(c: Job, rule: Rule, n: nat, k: Key)
    requires n <= |c.block| && k in c.home
    ensures Look(ViewAt(c, rule, n), k) == ValueAt(c, rule, n, Where(c, k))
  {
  }

  /** A place keeps its value over a stretch of the block in which nobody declares a write to
      it. */
  lemma {:induction false} Untouched(c: Job, rule: Rule, lo: nat, hi: nat, p: Place)
    requires lo <= hi <= |c.block| && rule != Unchecked
    requires forall i: nat, k :: lo <= i < hi && Writes(c, i, k) ==> !Lives(c, k, p)
    ensures ValueAt(c, rule, hi, p) == ValueAt(c, rule, lo, p)
  {
    hide OutcomeAt; hide ValueAt; hide DeclaredWrites; hide DeclaredReads; hide Lives; hide Stored;
    if lo < hi {
      Untouched(c, rule, lo, hi - 1, p);
      ValueStep(c, rule, hi - 1, p);
      var w := Effect(c.block[hi - 1], OutcomeAt(c, rule, hi - 1), rule);
      forall k | k in w
        ensures !Lives(c, k, p)
      {
        assert k in w.Keys;
        assert Writes(c, hi - 1, k);
      }
      StoredNone(c, w, p, ValueAt(c, rule, hi - 1, p));
    }
  }

  // ---- Checking changes nothing until something is rejected ----

  ghost predicate AllWithin(c: Job, rule: Rule, n: nat)
    requires n <= |c.block|
  {
    forall i :: 0 <= i < n ==> WithinDeclaration(c.block[i], OutcomeAt(c, rule, i))
  }

  lemma SameViews(c: Job, n: nat)
    requires n <= |c.block| && forall p :: ValueAt(c, Checked, n, p) == ValueAt(c, Unchecked, n, p)
    ensures ViewAt(c, Checked, n) == ViewAt(c, Unchecked, n)
  {
    hide ValueAt;
  }

  /** As long as the plain serial run stays within its declarations, checking changes nothing. */
  lemma {:induction false} CheckedIsPlain(c: Job, n: nat)
    requires n <= |c.block| && AllWithin(c, Unchecked, n)
    ensures forall p :: ValueAt(c, Checked, n, p) == ValueAt(c, Unchecked, n, p)
    ensures ViewAt(c, Checked, n) == ViewAt(c, Unchecked, n)
  {
    hide Execute; hide WithinDeclaration; hide ViewAt; hide ValueAt; hide Stored;
    if n == 0 {
      forall p
        ensures ValueAt(c, Checked, 0, p) == ValueAt(c, Unchecked, 0, p)
      {
        StartValue(c, Checked, p);
        StartValue(c, Unchecked, p);
      }
    } else {
      CheckedIsPlain(c, n - 1);
      assert WithinDeclaration(c.block[n - 1], OutcomeAt(c, Unchecked, n - 1));
      forall p
        ensures ValueAt(c, Checked, n, p) == ValueAt(c, Unchecked, n, p)
      {
        ValueStep(c, Checked, n - 1, p);
        ValueStep(c, Unchecked, n - 1, p);
      }
    }
    SameViews(c, n);
  }

  lemma {:induction false} FirstRejected(c: Job, n: nat) returns (v: nat)
    requires n <= |c.block| && !AllWithin(c, Unchecked, n)
    ensures v < n && AllWithin(c, Unchecked, v) && !WithinDeclaration(c.block[v], OutcomeAt(c, Unchecked, v))
  {
    hide OutcomeAt; hide WithinDeclaration;
    if AllWithin(c, Unchecked, n - 1) {
      v := n - 1;
    } else {
      v := FirstRejected(c, n - 1);
    }
  }

  /** The checked fold meets a rejected transaction exactly when the plain run does. */
  lemma CheckedRejectsLikePlain(c: Job)
    ensures AllWithin(c, Unchecked, |c.block|) <==> AllWithin(c, Checked, |c.block|)
  {
    hide Execute; hide ViewAt; hide WithinDeclaration;
    if AllWithin(c, Unchecked, |c.block|) {
      forall i | 0 <= i < |c.block|
        ensures WithinDeclaration(c.block[i], OutcomeAt(c, Checked, i))
      {
        CheckedIsPlain(c, i);
        assert WithinDeclaration(c.block[i], OutcomeAt(c, Unchecked, i));
      }
    } else {
      var v := FirstRejected(c, |c.block|);
      CheckedIsPlain(c, v);
      assert !WithinDeclaration(c.block[v], OutcomeAt(c, Checked, v));
    }
  }
}
