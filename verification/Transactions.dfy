/** Signed transactions with declared accesses and the abstract serial executor that runs them.

    A transaction body is an adaptive program: each overlay operation may depend on every
    value observed so far. What a run reads and writes is therefore a result of the run
    and not an assumption about it, as in `SerialExecutor.ExecuteTransaction`. */
module Transactions {

  import opened Basics

  /** Shard names. */
  type Shard(==, !new)

  /** A state key is a plain name or a name that already carries a shard prefix `shard::`. */
  datatype Key = Plain(name: Token) | Qualified(shard: Shard, name: Token)

  /** A stored string; the empty one is what a missing row reads as. */
  datatype Value = Blank | Text(content: Token)

  type Rows = map<Key, Value>

  function Look(rows: Rows, k: Key): Value {
    if k in rows then rows[k] else Blank
  }

  /** `qualifyStateKey`: the row under which a shard stores a key. */
  function Qualify(s: Shard, k: Key): Key {
    match k
    case Plain(name) => Qualified(s, name)
    case Qualified(_, _) => k
  }

  /** The row a key is read from; without a shard, rows are named by the keys themselves. */
  function Row(at: Option<Shard>, k: Key): Key {
    match at
    case None => k
    case Some(s) => Qualify(s, k)
  }

  /** `sort` stands for the sorting of key strings: it lists every key set without repetition. */
  ghost predicate Listing(sort: set<Key> -> seq<Key>) {
    forall keys: set<Key> ::
      (forall k :: k in sort(keys) <==> k in keys) && forall p, r ::
        0 <= p < r < |sort(keys)| ==> sort(keys)[p] != sort(keys)[r]
  }

  lemma ListingOf(sort: set<Key> -> seq<Key>, keys: set<Key>)
    requires Listing(sort)
    ensures (forall k :: k in sort(keys) <==> k in keys)
    ensures forall p, r :: 0 <= p < r < |sort(keys)| ==> sort(keys)[p] != sort(keys)[r]
  {
  }

  datatype Mode = Read | Write | ReadWrite | CommutativeDelta | Unsupported

  datatype Access = Access(key: Key, mode: Mode)

  /** One overlay operation; `Halt` ends the transaction with a receipt. */
  datatype Action = Get(key: Key) | Put(key: Key, value: Value) | Halt(success: bool, error: Value)

  /** `next` chooses the next action from the values observed or stored so far; no branch
      of a program performs more than `limit` operations. */
  datatype Program = Program(limit: nat, next: seq<Value> -> Action)

  datatype Tx = Tx(id: Id, accessList: seq<Access>, program: Program)

  /** A receipt together with the transaction's delta. */
  datatype Outcome = Outcome(success: bool, error: Value, observed: set<Key>, writes: Rows)

  // ---- Declared accesses ----

  predicate IsWriteMode(m: Mode) {
    m == Write || m == ReadWrite || m == CommutativeDelta
  }

  predicate NeedsReadValue(m: Mode) {
    m == Read || m == ReadWrite || m == CommutativeDelta
  }

  function DeclaredReads(t: Tx): set<Key> {
    set a | a in t.accessList && NeedsReadValue(a.mode) :: a.key
  }

  function DeclaredWrites(t: Tx): set<Key> {
    set a | a in t.accessList && IsWriteMode(a.mode) :: a.key
  }

  function DeclaredKeys(t: Tx): set<Key> {
    DeclaredReads(t) + DeclaredWrites(t)
  }

  /** In a canonical access list every key is declared; only a plain read is not a write and only a
      plain write is not a read. */
  lemma ModesDeclare(t: Tx, i: nat)
    requires Canonical(t) && i < |t.accessList|
    ensures t.accessList[i].key in DeclaredReads(t) <==> t.accessList[i].mode != Write
    ensures t.accessList[i].key in DeclaredWrites(t) <==> t.accessList[i].mode != Read
  {
    var a := t.accessList[i];
    assert a in t.accessList;
    assert forall b :: b in t.accessList && b.key == a.key ==> b == a;
  }

  /** What `calvinCanonicalAccesses` lets through: at least one access, no key twice, no
      unknown mode. Keys are taken to be non-empty and free of surrounding blanks. */
  predicate Canonical(t: Tx) {
    && t.accessList != []
    && (forall a :: a in t.accessList ==> a.mode != Unsupported)
    && (forall i, j :: 0 <= i < j < |t.accessList| ==> t.accessList[i].key != t.accessList[j].key)
  }

  // ---- Running one transaction ----

  /** Runs `p` on stored rows behind a private write overlay. Reading a key records it as
      observed even when the overlay answers. */
  function Run(p: Program, base: Rows, at: Option<Shard>, history: seq<Value>, overlay: Rows): Outcome
    decreases p.limit - |history|
  {
    if |history| >= p.limit then Outcome(false, Blank, {}, overlay) else
    match p.next(history)
    case Halt(success, error) => Outcome(success, error, {}, overlay)
    case Get(k) =>
      var v := if k in overlay then overlay[k] else Look(base, Row(at, k));
      var rest := Run(p, base, at, history + [v], overlay);
      rest.(observed := rest.observed + {k})
    case Put(k, v) => Run(p, base, at, history + [v], overlay[k := v])
  }

  function Execute(t: Tx, base: Rows, at: Option<Shard>): Outcome {
    Run(t.program, base, at, [], map[])
  }

  /** `calvinValidateActualAccess`: only declared reads were observed and only declared
      writes were made. */
  predicate WithinDeclaration(t: Tx, o: Outcome) {
    o.observed <= DeclaredReads(t) && o.writes.Keys <= DeclaredWrites(t)
  }

  /** Two states show the same value for every key of `keys`. */
  ghost predicate SameOn(keys: set<Key>, b1: Rows, at1: Option<Shard>, b2: Rows, at2: Option<Shard>) {
    forall k :: k in keys ==> Look(b1, Row(at1, k)) == Look(b2, Row(at2, k))
  }

  /** Two states that agree on `seen`, up to what the run has overwritten, are indistinguishable to
      a run that observes nothing else, and neither can make the run leave `seen` if the other does
      not. */
  lemma {:induction false} RunAgrees(p: Program, b1: Rows, at1: Option<Shard>, b2: Rows, at2: Option<Shard>,
      history: seq<Value>, overlay: Rows, seen: set<Key>)
    requires SameOn(seen - overlay.Keys, b1, at1, b2, at2)
    ensures Run(p, b1, at1, history, overlay).observed <= seen || Run(p, b2, at2, history, overlay).observed <= seen
            ==> Run(p, b1, at1, history, overlay) == Run(p, b2, at2, history, overlay)
    decreases p.limit - |history|
  {
    hide Row; hide Look;
    if |history| < p.limit {
      match p.next(history)
      case Halt(_, _) =>
      case Get(k) =>
        if k in seen {
          var v := if k in overlay then overlay[k] else Look(b1, Row(at1, k));
          RunAgrees(p, b1, at1, b2, at2, history + [v], overlay, seen);
        } else {
          assert k in Run(p, b1, at1, history, overlay).observed && k in Run(p, b2, at2, history, overlay).observed;
        }
      case Put(k, v) => RunAgrees(p, b1, at1, b2, at2, history + [v], overlay[k := v], seen);
    }
  }

  /** States that agree on a transaction's declared reads give the same verdict of the
      access check, and the same outcome whenever the check passes. */
  lemma ExecuteAgrees(t: Tx, b1: Rows, at1: Option<Shard>, b2: Rows, at2: Option<Shard>)
    requires SameOn(DeclaredReads(t), b1, at1, b2, at2)
    ensures WithinDeclaration(t, Execute(t, b1, at1)) <==> WithinDeclaration(t, Execute(t, b2, at2))
    ensures WithinDeclaration(t, Execute(t, b1, at1)) ==> Execute(t, b1, at1) == Execute(t, b2, at2)
  {
    RunAgrees(t.program, b1, at1, b2, at2, [], map[], DeclaredReads(t));
  }
}
