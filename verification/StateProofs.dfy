/** Versioned state roots and the proofs made against them: which proofs a verifier accepts, and
    when the proofs made after a run verify. */
module StateProofs {

  // ---- Strings ----

  ghost predicate NoBar(s: string) {
    '|' !in s
  }

  function Join(list: seq<string>): string {
    if list == [] then "" else if |list| == 1 then list[0] else list[0] + "|" + Join(list[1..])
  }

  /** A character put in front of the first piece. */
  function Cons(c: char, pieces: seq<string>): (r: seq<string>)
    requires pieces != []
    ensures r != []
  {
    [[c] + pieces[0]] + pieces[1..]
  }

  /** The pieces between bars; never empty. */
  function Split(s: string): (r: seq<string>)
    ensures r != []
  {
    if s == "" then [""] else
      if s[0] == '|' then [""] + Split(s[1..]) else Cons(s[0], Split(s[1..]))
  }

  lemma ConsAppend(c: char, a: seq<string>, b: seq<string>)
    requires a != []
    ensures Cons(c, a + b) == Cons(c, a) + b
  {
    assert (a + b)[1..] == a[1..] + b;
  }

  lemma {:induction false} SplitBar(u: string, v: string)
    ensures Split(u + "|" + v) == Split(u) + Split(v)
  {
    var s := u + "|" + v;
    if u == "" {
      assert s[1..] == v;
    } else {
      hide Cons;
      SplitBar(u[1..], v);
      ConsAppend(u[0], Split(u[1..]), Split(v));
      assert s[0] == u[0] && s[1..] == u[1..] + "|" + v;
      assert [""] + (Split(u[1..]) + Split(v)) == ([""] + Split(u[1..])) + Split(v);
    }
  }

  lemma {:induction false} SplitPlain(s: string)
    requires NoBar(s)
    ensures Split(s) == [s]
  {
    if s != "" {
      SplitPlain(s[1..]);
      assert [s[0]] + s[1..] == s;
    }
  }

  /** Cutting a join of pieces without bars gives the pieces back. */
  lemma {:induction false} SplitJoin(list: seq<string>)
    requires list != [] && forall i :: 0 <= i < |list| ==> NoBar(list[i])
    ensures Split(Join(list)) == list
  {
    if |list| == 1 {
      SplitPlain(list[0]);
      assert list == [list[0]];
    } else {
      SplitJoin(list[1..]);
      SplitPlain(list[0]);
      SplitBar(list[0], Join(list[1..]));
      assert list == [list[0]] + list[1..];
    }
  }

  /** A piece without bars survives whatever else is joined with it. */
  lemma {:induction false} PieceOfJoin(list: seq<string>, i: nat)
    requires i < |list| && NoBar(list[i])
    ensures list[i] in Split(Join(list))
  {
    if |list| == 1 {
      SplitPlain(list[0]);
    } else {
      SplitBar(list[0], Join(list[1..]));
      if i == 0 {
        SplitPlain(list[0]);
      } else {
        PieceOfJoin(list[1..], i - 1);
      }
    }
  }

  /** Two strings that end in a piece without bars. */
  lemma LastPiece(s: string, a: string, t: string, b: string)
    requires s + "|" + a == t + "|" + b && NoBar(a) && NoBar(b)
    ensures s == t && a == b
  {
    var whole := s + "|" + a;
    assert whole[|s|] == '|' && whole[|t|] == '|';
    assert whole[..|s|] == s && whole[..|t|] == t;
    assert whole[|s| + 1..] == a && whole[|t| + 1..] == b;
  }

  function Digit(n: nat): char
    requires n < 10
  {
    "0123456789"[n]
  }

  function Digits(n: nat): (s: string)
    ensures s != ""
  {
    if n < 10 then [Digit(n)] else Digits(n / 10) + [Digit(n % 10)]
  }

  function Itoa(n: int): string {
    if n < 0 then "-" + Digits(-n) else Digits(n)
  }

  lemma {:induction false} DigitsPlain(n: nat)
    ensures NoBar(Digits(n)) && '-' !in Digits(n)
  {
    if n >= 10 {
      DigitsPlain(n / 10);
    }
  }

  lemma {:induction false} DigitsInjective(m: nat, n: nat)
    requires Digits(m) == Digits(n)
    ensures m == n
  {
    var s := Digits(m);
    assert s[|s| - 1] == Digit(m % 10) == Digit(n % 10);
    if m >= 10 && n >= 10 {
      assert Digits(m / 10) == s[..|s| - 1] == Digits(n / 10);
      DigitsInjective(m / 10, n / 10);
    }
  }

  lemma ItoaPlain(n: int)
    ensures NoBar(Itoa(n))
  {
    DigitsPlain(if n < 0 then -n else n);
  }

  lemma ItoaInjective(m: int, n: int)
    requires Itoa(m) == Itoa(n)
    ensures m == n
  {
    DigitsPlain(if m < 0 then -m else m);
    DigitsPlain(if n < 0 then -n else n);
    assert (m < 0) == (n < 0) by {
      assert m < 0 ==> Itoa(m)[0] == '-';
      assert n < 0 ==> Itoa(n)[0] == '-';
    }
    if m < 0 {
      assert Itoa(m)[1..] == Digits(-m) && Itoa(n)[1..] == Digits(-n);
      DigitsInjective(-m, -n);
    } else {
      DigitsInjective(m, n);
    }
  }

  // ---- Snapshots, proofs and their check ----

  type Hasher = string -> string
  type Sorter = seq<string> -> seq<string>

  /** What is assumed of the hash: no collisions, and hexadecimal digests. */
  ghost predicate Hashing(h: Hasher) {
    && (forall s, t :: h(s) == h(t) ==> s == t)
    && (forall s :: Hex(h(s)))
  }

  ghost predicate Hex(s: string) {
    forall c :: c in s ==> c in "0123456789abcdef"
  }

  /** What is assumed of sorting: the same pieces, in an order that depends on nothing else. */
  ghost predicate Sorting(sort: Sorter) {
    && (forall a :: multiset(sort(a)) == multiset(a))
    && (forall a, b :: multiset(a) == multiset(b) ==> sort(a) == sort(b))
  }

  datatype Cell = Cell(value: int, version: int)

  type State = map<string, Cell>

  datatype Snapshot = Snapshot(root: string, leaves: map<string, string>)

  datatype Proof = Missing(key: string, root: string)
      | Proof(key: string, value: int, version: int, root: string, hashes: seq<string>, hash: string)

  function LeafText(key: string, cell: Cell): string {
    "leaf|" + key + "|" + Itoa(cell.value) + "|" + Itoa(cell.version)
  }

  /** A leaf text tells its key, value and version, even if the key contains bars. */
  lemma LeafTextInjective(k: string, c: Cell, l: string, d: Cell)
    requires LeafText(k, c) == LeafText(l, d)
    ensures k == l && c == d
  {
    ItoaPlain(c.value); ItoaPlain(c.version); ItoaPlain(d.value); ItoaPlain(d.version);
    hide Itoa;
    LastPiece("leaf|" + k + "|" + Itoa(c.value), Itoa(c.version), "leaf|" + l + "|" + Itoa(d.value), Itoa(d.version));
    LastPiece("leaf|" + k, Itoa(c.value), "leaf|" + l, Itoa(d.value));
    assert ("leaf|" + k)[5..] == k && ("leaf|" + l)[5..] == l;
    ItoaInjective(c.value, d.value);
    ItoaInjective(c.version, d.version);
  }

  function Leaves(h: Hasher, state: State): map<string, string> {
    map k | k in state :: h(LeafText(k, state[k]))
  }

  /** `hashes` lists the leaves of the state in some order. */
  ghost predicate Lists(h: Hasher, state: State, hashes: seq<string>) {
    && (forall i, j :: 0 <= i < j < |hashes| ==> hashes[i] != hashes[j])
    && (forall x :: x in hashes <==> IsLeaf(h, state, x))
  }

  ghost predicate IsLeaf(h: Hasher, state: State, x: string) {
    exists k :: k in state && h(LeafText(k, state[k])) == x
  }

  function RootOf(h: Hasher, sort: Sorter, hashes: seq<string>): string {
    if hashes == [] then h("empty") else h(Join(sort(hashes)))
  }

  /** `snap` is the snapshot of `state`, whatever the order its leaves were listed in. */
  ghost predicate Snaps(h: Hasher, sort: Sorter, state: State, snap: Snapshot) {
    snap.leaves == Leaves(h, state) && forall hashes :: Lists(h, state, hashes) ==> snap.root == RootOf(h, sort, hashes)
  }

  /** `buildStateRootSnapshot`, for any listing `keys` of the state's keys. */
  method BuildSnapshot(h: Hasher, sort: Sorter, state: State, keys: seq<string>)
      returns (snap: Snapshot, ghost hashes: seq<string>)
    requires Hashing(h) && Sorting(sort) && (forall k :: k in keys <==> k in state)
    requires forall i, j :: 0 <= i < j < |keys| ==> keys[i] != keys[j]
    ensures Lists(h, state, hashes) && Snaps(h, sort, state, snap)
  {
    var leaves: map<string, string> := map[];
    var list: seq<string> := [];
    hide LeafText; hide Sorting; hide Hashing;
    for i := 0 to |keys|
      invariant |list| == i
      invariant forall j :: 0 <= j < i ==> keys[j] in state && list[j] == h(LeafText(keys[j], state[keys[j]]))
      invariant forall k :: k in leaves <==> exists j :: 0 <= j < i && keys[j] == k
      invariant forall k :: k in leaves ==> k in state && leaves[k] == h(LeafText(k, state[k]))
    {
      assert keys[i] in keys;
      var leaf := h(LeafText(keys[i], state[keys[i]]));
      leaves := leaves[keys[i] := leaf];
      list := list + [leaf];
    }
    hashes := list;
    ListsAll(h, state, keys, list);
    forall k | k in state
      ensures k in leaves
    {
      assert k in keys;
    }
    assert leaves == Leaves(h, state);
    snap := Snapshot(RootOf(h, sort, list), leaves);
    forall other | Lists(h, state, other)
      ensures RootOf(h, sort, other) == RootOf(h, sort, list)
    {
      SameRoot(h, sort, state, list, other);
    }
  }

  lemma ListsAll(h: Hasher, state: State, keys: seq<string>, list: seq<string>)
    requires Hashing(h) && (forall k :: k in keys <==> k in state)
    requires forall i, j :: 0 <= i < j < |keys| ==> keys[i] != keys[j]
    requires |list| == |keys|
    requires forall j :: 0 <= j < |keys| ==> keys[j] in state && list[j] == h(LeafText(keys[j], state[keys[j]]))
    ensures Lists(h, state, list)
  {
    hide LeafText;
    forall i, j | 0 <= i < j < |list|
      ensures list[i] != list[j]
    {
      if list[i] == list[j] {
        LeafTextInjective(keys[i], state[keys[i]], keys[j], state[keys[j]]);
      }
    }
    forall x | IsLeaf(h, state, x)
      ensures x in list
    {
      var k :| k in state && h(LeafText(k, state[k])) == x;
      assert k in keys;
      var j :| 0 <= j < |keys| && keys[j] == k;
      assert list[j] == x;
    }
  }

  lemma {:induction false} SameBag(a: seq<string>, b: seq<string>)
    requires forall i, j :: 0 <= i < j < |a| ==> a[i] != a[j]
    requires forall i, j :: 0 <= i < j < |b| ==> b[i] != b[j]
    requires forall x :: x in a <==> x in b
    ensures multiset(a) == multiset(b)
  {
    forall x
      ensures multiset(a)[x] == multiset(b)[x]
    {
      CountOnce(a, x);
      CountOnce(b, x);
    }
  }

  lemma {:induction false} CountOnce(a: seq<string>, x: string)
    requires forall i, j :: 0 <= i < j < |a| ==> a[i] != a[j]
    ensures multiset(a)[x] == if x in a then 1 else 0
  {
    if a != [] {
      var last := |a| - 1;
      assert a == a[..last] + [a[last]];
      CountOnce(a[..last], x);
    }
  }

  lemma SameRoot(h: Hasher, sort: Sorter, state: State, a: seq<string>, b: seq<string>)
    requires Sorting(sort) && Lists(h, state, a) && Lists(h, state, b)
    ensures RootOf(h, sort, a) == RootOf(h, sort, b)
  {
    SameBag(a, b);
    assert a == [] <==> b == [] by {
      assert a != [] ==> a[0] in a;
      assert b != [] ==> b[0] in b;
    }
  }

  /** `generateStateProof`: `hashes` are the snapshot's leaves in any order. */
  function Generate(h: Hasher, key: string, cell: Cell, snap: Snapshot, hashes: seq<string>): Proof {
    if key !in snap.leaves then Missing(key, snap.root)
    else Proof(key, cell.value, cell.version, snap.root, hashes,
      h("proof|" + key + "|" + snap.leaves[key] + "|" + snap.root))
  }

  /** Whether generated or not, a proof names what was asked for. */
  lemma GenerateNames(h: Hasher, key: string, cell: Cell, snap: Snapshot, hashes: seq<string>)
    ensures var p := Generate(h, key, cell, snap, hashes);
      && p.key == key && p.root == snap.root && (p.Proof? <==> key in snap.leaves)
      && (p.Proof? ==> p.value == cell.value && p.version == cell.version && p.hashes == hashes)
  {
  }

  datatype Verdict = Accepted | NotGenerated | NoHashes | RootMismatch | LeafMissing | HashMismatch

  /** `verifyStateProof`. */
  function Verify(h: Hasher, sort: Sorter, p: Proof): Verdict {
    match p
    case Missing(_, _) => NotGenerated
    case Proof(key, value, version, root, hashes, hash) =>
      if hashes == [] then NoHashes
      else if h(Join(sort(hashes))) != root then RootMismatch
      else
        var leaf := h(LeafText(key, Cell(value, version)));
        if leaf !in sort(hashes) then LeafMissing
        else if hash != h("proof|" + key + "|" + leaf + "|" + root) then HashMismatch
        else Accepted
  }

  /** Only what the state holds can be proved against its root, whatever the proof looks like. */
  lemma AcceptsOnlyLeaves(h: Hasher, sort: Sorter, state: State, snap: Snapshot, hashes: seq<string>, p: Proof)
    requires Hashing(h) && Sorting(sort) && Snaps(h, sort, state, snap) && Lists(h, state, hashes)
    requires Verify(h, sort, p) == Accepted && p.root == snap.root
    ensures p.key in state && state[p.key] == Cell(p.value, p.version)
  {
    hide LeafText; hide Join; hide Split;
    var leaf := h(LeafText(p.key, Cell(p.value, p.version)));
    assert leaf in sort(p.hashes) && h(Join(sort(p.hashes))) == RootOf(h, sort, hashes);
    OfferedLeaf(h, sort, state, hashes, p.hashes, leaf);
    var k :| k in state && h(LeafText(k, state[k])) == leaf;
    LeafTextInjective(k, state[k], p.key, Cell(p.value, p.version));
  }

  /** An accepted proof carries the digest of its key, leaf and root: apart from the order of the
      hashes it lists, it is the proof that is generated for the cell. */
  lemma AcceptsOnlyGenerated(h: Hasher, sort: Sorter, state: State, snap: Snapshot, hashes: seq<string>, p: Proof)
    requires Hashing(h) && Sorting(sort) && Snaps(h, sort, state, snap) && Lists(h, state, hashes)
    requires Verify(h, sort, p) == Accepted && p.root == snap.root
    ensures p == Generate(h, p.key, Cell(p.value, p.version), snap, p.hashes)
  {
    AcceptsOnlyLeaves(h, sort, state, snap, hashes, p);
    hide LeafText; hide Join; hide Hashing; hide Sorting; hide Lists;
  }

  /** Pieces with the hash of the root contain no digest that is not a leaf. */
  lemma OfferedLeaf(h: Hasher, sort: Sorter, state: State, hashes: seq<string>, offered: seq<string>, leaf: string)
    requires Hashing(h) && Sorting(sort) && Lists(h, state, hashes) && Hex(leaf)
    requires leaf in sort(offered) && h(Join(sort(offered))) == RootOf(h, sort, hashes)
    ensures IsLeaf(h, state, leaf)
  {
    hide LeafText; hide Join; hide Split;
    HexPlain(leaf);
    var i :| 0 <= i < |sort(offered)| && sort(offered)[i] == leaf;
    PieceOfJoin(sort(offered), i);
    NeverEmpty(sort(offered), i);
    assert hashes != [] && Join(sort(offered)) == Join(sort(hashes));
    LeavesBack(h, sort, state, hashes);
    SortKeeps(sort, hashes, leaf);
  }

  /** Joined digests never read as the text hashed for the empty state. */
  lemma NeverEmpty(list: seq<string>, i: nat)
    requires i < |list| && Hex(list[i])
    ensures Join(list) != "empty"
  {
    hide Join; hide Split;
    assert "empty"[1] == 'm' && 'm' in "empty" && 'm' !in "0123456789abcdef";
    assert !Hex("empty");
    SplitPlain("empty");
    HexPlain(list[i]);
    PieceOfJoin(list, i);
    assert Split(Join(list)) != Split("empty");
  }

  lemma HexPlain(s: string)
    requires Hex(s)
    ensures NoBar(s)
  {
  }

  lemma SortKeeps(sort: Sorter, a: seq<string>, x: string)
    requires Sorting(sort)
    ensures x in sort(a) <==> x in a
  {
    assert x in multiset(sort(a)) <==> x in multiset(a);
  }

  lemma LeavesBack(h: Hasher, sort: Sorter, state: State, hashes: seq<string>)
    requires Hashing(h) && Sorting(sort) && Lists(h, state, hashes) && hashes != []
    ensures Split(Join(sort(hashes))) == sort(hashes)
  {
    var list := sort(hashes);
    assert hashes[0] in hashes;
    SortKeeps(sort, hashes, hashes[0]);
    forall i | 0 <= i < |list|
      ensures NoBar(list[i])
    {
      SortKeeps(sort, hashes, list[i]);
      var k :| k in state && h(LeafText(k, state[k])) == list[i];
      HexPlain(list[i]);
    }
    SplitJoin(list);
  }

  /** A proof of a cell against a snapshot verifies exactly if the snapshot holds that cell. */
  lemma ProofVerifiesIff(h: Hasher, sort: Sorter, state: State, snap: Snapshot, hashes: seq<string>, key: string,
      cell: Cell)
    requires Hashing(h) && Sorting(sort) && Snaps(h, sort, state, snap) && Lists(h, state, hashes)
    ensures Verify(h, sort, Generate(h, key, cell, snap, hashes)) == Accepted <==> key in state && state[key] == cell
  {
    var p := Generate(h, key, cell, snap, hashes);
    if Verify(h, sort, p) == Accepted {
      AcceptsOnlyLeaves(h, sort, state, snap, hashes, p);
    }
    if key in state && state[key] == cell {
      var leaf := h(LeafText(key, cell));
      assert IsLeaf(h, state, leaf) && leaf in hashes;
      SortKeeps(sort, hashes, leaf);
      assert snap.leaves[key] == leaf;
    }
  }

  // ---- A run of commits ----

  datatype Commit = Commit(shard: int, key: string, value: int, height: int)

  function Version(state: State, key: string): int {
    if key in state then state[key].version else 0
  }

  /** The state of one shard after the first `n` commits. */
  ghost function StateAt(commits: seq<Commit>, shard: int, n: nat): State
    requires n <= |commits|
  {
    if n == 0 then map[] else
      var before, c := StateAt(commits, shard, n - 1), commits[n - 1];
      if c.shard != shard then before else before[c.key := Cell(c.value, Version(before, c.key) + 1)]
  }

  /** Which of the first `n` commits were to the key. */
  ghost function TouchedBy(commits: seq<Commit>, shard: int, key: string, n: nat): set<nat> {
    set i: nat | i < n && Touches(commits, shard, key, i)
  }

  /** The last of them. */
  ghost predicate LastTouch(commits: seq<Commit>, shard: int, key: string, n: nat, i: nat) {
    i in TouchedBy(commits, shard, key, n) && forall j :: j in TouchedBy(commits, shard, key, n) ==> j <= i
  }

  /** A shard holds exactly the keys committed to it, each with the value of its last commit and,
      as version, the number of its commits. */
  lemma {:induction false} StateIs(commits: seq<Commit>, shard: int, key: string, n: nat)
    requires n <= |commits|
    ensures key in StateAt(commits, shard, n) <==> TouchedBy(commits, shard, key, n) != {}
    ensures key in StateAt(commits, shard, n) ==>
      && StateAt(commits, shard, n)[key].version == |TouchedBy(commits, shard, key, n)|
      && exists i: nat ::
        LastTouch(commits, shard, key, n, i) && StateAt(commits, shard, n)[key].value == commits[i].value
  {
    if n > 0 {
      StateIs(commits, shard, key, n - 1);
      var before := TouchedBy(commits, shard, key, n - 1);
      if Touches(commits, shard, key, n - 1) {
        assert TouchedBy(commits, shard, key, n) == before + {n - 1};
        assert LastTouch(commits, shard, key, n, n - 1);
      } else {
        assert TouchedBy(commits, shard, key, n) == before;
        assert forall i: nat :: LastTouch(commits, shard, key, n - 1, i) ==> LastTouch(commits, shard, key, n, i);
      }
    }
  }

  /** The commit whose root `latestRoots` picks for a shard, or -1. */
  ghost function Latest(commits: seq<Commit>, shard: int, n: nat): (l: int)
    requires n <= |commits|
    ensures -1 <= l < n && (l >= 0 ==> commits[l].shard == shard)
  {
    if n == 0 then -1 else
      var l := Latest(commits, shard, n - 1);
      if commits[n - 1].shard == shard && (l < 0 || commits[n - 1].height >= commits[l].height) then n - 1 else l
  }

  /** It is the last commit of the greatest height in the shard. */
  lemma {:induction false} LatestIsTop(commits: seq<Commit>, shard: int, n: nat, i: nat)
    requires i < n <= |commits| && commits[i].shard == shard
    ensures var l := Latest(commits, shard, n);
      l >= 0 && commits[i].height <= commits[l].height && (i > l ==> commits[i].height < commits[l].height)
  {
    if i < n - 1 {
      LatestIsTop(commits, shard, n - 1, i);
    }
  }

  ghost predicate Touches(commits: seq<Commit>, shard: int, key: string, i: nat) {
    i < |commits| && commits[i].shard == shard && commits[i].key == key
  }

  /** No commit of the key between `lo` and `hi`. */
  ghost predicate Quiet(commits: seq<Commit>, shard: int, key: string, lo: nat, hi: nat) {
    forall i :: lo <= i < hi ==> !Touches(commits, shard, key, i)
  }

  lemma {:induction false} QuietKeeps(commits: seq<Commit>, shard: int, key: string, lo: nat, hi: nat)
    requires lo <= hi <= |commits| && Quiet(commits, shard, key, lo, hi)
    ensures key in StateAt(commits, shard, hi) <==> key in StateAt(commits, shard, lo)
    ensures key in StateAt(commits, shard, lo) ==> StateAt(commits, shard, hi)[key] == StateAt(commits, shard, lo)[key]
  {
    if lo < hi {
      QuietKeeps(commits, shard, key, lo, hi - 1);
      assert !Touches(commits, shard, key, hi - 1);
    }
  }

  lemma {:induction false} VersionsGrow(commits: seq<Commit>, shard: int, key: string, lo: nat, hi: nat)
    requires lo <= hi <= |commits|
    ensures 0 <= Version(StateAt(commits, shard, lo), key) <= Version(StateAt(commits, shard, hi), key)
    ensures (key in StateAt(commits, shard, hi) <==> Version(StateAt(commits, shard, hi), key) > 0)
    ensures (exists i :: lo <= i < hi && Touches(commits, shard, key, i))
        ==> Version(StateAt(commits, shard, lo), key) < Version(StateAt(commits, shard, hi), key)
    decreases hi
  {
    if lo < hi {
      VersionsGrow(commits, shard, key, lo, hi - 1);
    } else if hi > 0 {
      VersionsGrow(commits, shard, key, lo - 1, hi - 1);
    }
  }

  /** A committed key can be proved against the root chosen for its shard exactly if it was
      not committed again after the commit that made this root. */
  lemma ProvableIff(h: Hasher, sort: Sorter, commits: seq<Commit>, shard: int, key: string, snap: Snapshot,
      hashes: seq<string>)
    requires Hashing(h) && Sorting(sort) && exists i :: Touches(commits, shard, key, i)
    ensures Latest(commits, shard, |commits|) >= 0
    ensures key in StateAt(commits, shard, |commits|)
    ensures var state := StateAt(commits, shard, Latest(commits, shard, |commits|) + 1);
      Snaps(h, sort, state, snap) && Lists(h, state, hashes) ==>
        (Verify(h, sort, Generate(h, key, StateAt(commits, shard, |commits|)[key], snap, hashes)) == Accepted
         <==> Quiet(commits, shard, key, Latest(commits, shard, |commits|) + 1, |commits|))
  {
    hide Snaps; hide Lists; hide Hashing; hide Sorting; hide Verify; hide Generate; hide StateAt; hide Latest;
    var i :| Touches(commits, shard, key, i);
    LatestIsTop(commits, shard, |commits|, i);
    var top := Latest(commits, shard, |commits|) + 1;
    QuietIff(commits, shard, key, top);
    var state := StateAt(commits, shard, top);
    if Snaps(h, sort, state, snap) && Lists(h, state, hashes) {
      ProofVerifiesIff(h, sort, state, snap, hashes, key, StateAt(commits, shard, |commits|)[key]);
    }
  }

  /** A committed key has its final cell already at `top` exactly if it is not committed later. */
  lemma QuietIff(commits: seq<Commit>, shard: int, key: string, top: nat)
    requires top <= |commits| && exists i :: Touches(commits, shard, key, i)
    ensures key in StateAt(commits, shard, |commits|)
    ensures Quiet(commits, shard, key, top, |commits|)
      <==> key in StateAt(commits, shard, top)
            && StateAt(commits, shard, top)[key] == StateAt(commits, shard, |commits|)[key]
  {
    hide StateAt;
    VersionsGrow(commits, shard, key, 0, |commits|);
    VersionsGrow(commits, shard, key, top, |commits|);
    if Quiet(commits, shard, key, top, |commits|) {
      QuietKeeps(commits, shard, key, top, |commits|);
    }
  }

  ghost predicate Rising(commits: seq<Commit>) {
    forall i, j :: 0 <= i < j < |commits| && commits[i].shard == commits[j].shard
      ==> commits[i].height <= commits[j].height
  }

  /** Some listing of a key set. */
  method ListKeys(set0: set<string>) returns (keys: seq<string>)
    ensures (forall k :: k in keys <==> k in set0) && forall i, j :: 0 <= i < j < |keys| ==> keys[i] != keys[j]
  {
    keys := [];
    var rest := set0;
    while rest != {}
      invariant (forall k :: k in set0 <==> k in keys || k in rest) && (forall k :: k in keys ==> k !in rest)
      invariant forall i, j :: 0 <= i < j < |keys| ==> keys[i] != keys[j]
    {
      var k :| k in rest;
      assert forall i :: 0 <= i < |keys| ==> keys[i] in keys;
      keys, rest := keys + [k], rest - {k};
    }
  }

  /** `latestRoots` over the root log, which has one record per commit. */
  method LatestRoots(log: seq<Commit>) returns (latest: map<int, nat>)
    ensures forall shard :: (shard in latest <==> Latest(log, shard, |log|) >= 0) && (shard in latest ==>
      latest[shard] == Latest(log, shard, |log|))
  {
    latest := map[];
    for n := 0 to |log|
      invariant forall shard :: (shard in latest <==> Latest(log, shard, n) >= 0) && (shard in latest ==>
        latest[shard] == Latest(log, shard, n))
    {
      var record := log[n];
      if record.shard !in latest || record.height >= log[latest[record.shard]].height {
        latest := latest[record.shard := n];
      }
    }
  }

  function Of(state: map<int, State>, shard: int): State {
    if shard in state then state[shard] else map[]
  }

  /** No later commit has the shard and height of commit `i`. */
  ghost predicate Closes(commits: seq<Commit>, i: nat) {
    i < |commits| && forall j ::
      i < j < |commits| ==> !(commits[j].shard == commits[i].shard && commits[j].height == commits[i].height)
  }

  ghost predicate RootAt(h: Hasher, sort: Sorter, commits: seq<Commit>, roots: map<(int, int), Snapshot>, i: nat) {
    && i < |commits| && (commits[i].height, commits[i].shard) in roots
    && Snaps(h, sort, StateAt(commits, commits[i].shard, i + 1), roots[(commits[i].height, commits[i].shard)])
  }

  ghost predicate RootsKept(h: Hasher, sort: Sorter, commits: seq<Commit>, roots: map<(int, int), Snapshot>) {
    forall i: nat :: Closes(commits, i) ==> RootAt(h, sort, commits, roots, i)
  }

  ghost predicate StatesKept(commits: seq<Commit>, state: map<int, State>) {
    forall shard :: Of(state, shard) == StateAt(commits, shard, |commits|)
  }

  lemma {:induction false} StatePrefix(commits: seq<Commit>, more: seq<Commit>, shard: int, n: nat)
    requires n <= |commits|
    ensures StateAt(commits + more, shard, n) == StateAt(commits, shard, n)
  {
    if n > 0 {
      StatePrefix(commits, more, shard, n - 1);
      assert (commits + more)[n - 1] == commits[n - 1];
    }
  }

  /** The root table of a run: per shard the state, per height and shard the last snapshot. */
  class Preview {
    var state: map<int, State>
    var roots: map<(int, int), Snapshot>
    var log: seq<Commit>

    ghost predicate Valid(h: Hasher, sort: Sorter)
      reads this
    {
      StatesKept(log, state) && RootsKept(h, sort, log, roots)
    }

    constructor (h: Hasher, sort: Sorter)
      ensures Valid(h, sort) && log == []
    {
      state, roots, log := map[], map[], [];
    }

    method Record(h: Hasher, sort: Sorter, c: Commit)
      requires Hashing(h) && Sorting(sort) && Valid(h, sort)
      modifies this
      ensures Valid(h, sort) && log == old(log) + [c]
    {
      var before := Of(state, c.shard);
      var cell := Cell(c.value, Version(before, c.key) + 1);
      var after := before[c.key := cell];
      var keys := ListKeys(after.Keys);
      hide Hashing; hide Sorting; hide StatesKept; hide RootsKept; hide Snaps; hide Lists;
      var snap, hashes := BuildSnapshot(h, sort, after, keys);
      RecordOne(h, sort, log, state, roots, c, after, snap);
      state := state[c.shard := after];
      roots := roots[(c.height, c.shard) := snap];
      log := log + [c];
    }

    /** Proves and checks one key against the latest root of its shard. */
    method ProveKey(h: Hasher, sort: Sorter, latest: map<int, nat>, shard: int, key: string) returns (ok: bool)
      requires Hashing(h) && Sorting(sort) && Valid(h, sort)
      requires forall s ::
        (s in latest <==> Latest(log, s, |log|) >= 0) && (s in latest ==> latest[s] == Latest(log, s, |log|))
      ensures ok <==> Provable(log, shard, key)
    {
      hide Hashing; hide Sorting; hide RootsKept; hide Snaps; hide Lists; hide Latest; hide Provable; hide StateAt;
      hide Verify; hide Generate;
      if shard !in latest {
        NeverCommitted(log, shard, key);
        return false;
      }
      LatestRoot(h, sort, log, roots, shard);
      var cell := if key in Of(state, shard) then Of(state, shard)[key] else Cell(0, 0);
      var snap := roots[(log[latest[shard]].height, shard)];
      var hashes := LeafHashes(h, sort, snap, StateAt(log, shard, latest[shard] + 1));
      ok := Verify(h, sort, Generate(h, key, cell, snap, hashes)) == Accepted;
      ProvedIff(h, sort, log, shard, key, cell, snap, hashes);
    }

    /** The witness of one transaction: it verifies if there is a key and every proof does. */
    method Witness(h: Hasher, sort: Sorter, required: seq<(int, string)>) returns (verified: nat, failed: nat, ok: bool)
      requires Hashing(h) && Sorting(sort) && Valid(h, sort)
      ensures verified + failed == |required| && failed == |Unprovable(log, required, |required|)|
      ensures ok <==> required != [] && forall p :: 0 <= p < |required| ==> Provable(log, required[p].0, required[p].1)
    {
      var latest := LatestRoots(log);
      verified, failed := 0, 0;
      hide Hashing; hide Sorting; hide Valid; hide Provable; hide Latest;
      for p := 0 to |required|
        invariant verified + failed == p && failed == |Unprovable(log, required, p)|
        invariant (failed == 0 <==> forall q :: 0 <= q < p ==> Provable(log, required[q].0, required[q].1))
      {
        var one := ProveKey(h, sort, latest, required[p].0, required[p].1);
        UnprovableNext(log, required, p);
        if one {
          verified := verified + 1;
        } else {
          failed := failed + 1;
        }
      }
      ok := |required| > 0 && failed == 0;
    }
  }

  /** Which of the first `n` required keys have no valid proof. */
  ghost function Unprovable(log: seq<Commit>, required: seq<(int, string)>, n: nat): set<nat>
    requires n <= |required|
  {
    set p: nat | p < n && !Provable(log, required[p].0, required[p].1)
  }

  lemma UnprovableNext(log: seq<Commit>, required: seq<(int, string)>, p: nat)
    requires p < |required|
    ensures |Unprovable(log, required, p + 1)|
      == |Unprovable(log, required, p)| + if Provable(log, required[p].0, required[p].1) then 0 else 1
  {
    hide Provable;
    var more := if Provable(log, required[p].0, required[p].1) then {} else {p};
    assert Unprovable(log, required, p + 1) == Unprovable(log, required, p) + more;
  }

  /** The leaves of a snapshot in some order. */
  method LeafHashes(h: Hasher, sort: Sorter, snap: Snapshot, ghost state: State) returns (hashes: seq<string>)
    requires Hashing(h) && Snaps(h, sort, state, snap)
    ensures Lists(h, state, hashes)
  {
    var keys := ListKeys(snap.leaves.Keys);
    hashes := [];
    hide Hashing; hide LeafText;
    for i := 0 to |keys|
      invariant |hashes| == i
      invariant forall j :: 0 <= j < i ==> keys[j] in state && hashes[j] == h(LeafText(keys[j], state[keys[j]]))
    {
      assert keys[i] in keys;
      hashes := hashes + [snap.leaves[keys[i]]];
    }
    ListsAll(h, state, keys, hashes);
  }

  /** The table holds the root that `latestRoots` picks. */
  lemma LatestRoot(h: Hasher, sort: Sorter, commits: seq<Commit>, roots: map<(int, int), Snapshot>, shard: int)
    requires RootsKept(h, sort, commits, roots) && Latest(commits, shard, |commits|) >= 0
    ensures var l := Latest(commits, shard, |commits|);
      && commits[l].shard == shard && (commits[l].height, shard) in roots
      && Snaps(h, sort, StateAt(commits, shard, l + 1), roots[(commits[l].height, shard)])
  {
    LatestCloses(commits, shard);
    hide Snaps; hide Latest; hide StateAt; hide Closes;
    assert RootAt(h, sort, commits, roots, Latest(commits, shard, |commits|));
  }

  /** Committed, and not again after the commit of its shard that made the latest root. */
  ghost predicate Provable(commits: seq<Commit>, shard: int, key: string) {
    && (exists i :: Touches(commits, shard, key, i))
    && var l := Latest(commits, shard, |commits|); l >= 0 && Quiet(commits, shard, key, l + 1, |commits|)
  }

  lemma RecordOne(h: Hasher, sort: Sorter, commits: seq<Commit>, state: map<int, State>, roots: map<(int, int),
      Snapshot>, c: Commit, after: State, snap: Snapshot)
    requires StatesKept(commits, state) && RootsKept(h, sort, commits, roots) && Snaps(h, sort, after, snap)
    requires after == Of(state, c.shard)[c.key := Cell(c.value, Version(Of(state, c.shard), c.key) + 1)]
    ensures StatesKept(commits + [c], state[c.shard := after])
    ensures RootsKept(h, sort, commits + [c], roots[(c.height, c.shard) := snap])
  {
    var commits', roots' := commits + [c], roots[(c.height, c.shard) := snap];
    hide Snaps; hide Version;
    forall shard
      ensures StateAt(commits', shard, |commits'|) == Of(state[c.shard := after], shard)
    {
      StatePrefix(commits, [c], shard, |commits|);
    }
    forall i: nat | Closes(commits', i)
      ensures RootAt(h, sort, commits', roots', i)
    {
      if i < |commits| {
        assert commits'[i] == commits[i] && commits'[|commits|] == c;
        assert Closes(commits, i) by {
          forall j | i < j < |commits|
            ensures !(commits[j].shard == commits[i].shard && commits[j].height == commits[i].height)
          {
            assert commits'[j] == commits[j];
          }
        }
        assert RootAt(h, sort, commits, roots, i);
        StatePrefix(commits, [c], commits[i].shard, i + 1);
      }
    }
  }

  lemma NeverCommitted(commits: seq<Commit>, shard: int, key: string)
    requires Latest(commits, shard, |commits|) < 0
    ensures !Provable(commits, shard, key)
  {
  }

  lemma LatestCloses(commits: seq<Commit>, shard: int)
    requires Latest(commits, shard, |commits|) >= 0
    ensures Closes(commits, Latest(commits, shard, |commits|))
  {
    var l := Latest(commits, shard, |commits|);
    forall j | l < j < |commits|
      ensures !(commits[j].shard == commits[l].shard && commits[j].height == commits[l].height)
    {
      if commits[j].shard == shard {
        LatestIsTop(commits, shard, |commits|, j);
      }
    }
  }

  lemma ProvedIff(h: Hasher, sort: Sorter, commits: seq<Commit>, shard: int, key: string, cell: Cell, snap: Snapshot,
      hashes: seq<string>)
    requires Hashing(h) && Sorting(sort) && Latest(commits, shard, |commits|) >= 0
    requires var state := StateAt(commits, shard, Latest(commits, shard, |commits|) + 1);
      Snaps(h, sort, state, snap) && Lists(h, state, hashes)
    requires cell == if key in StateAt(commits, shard, |commits|) then StateAt(commits, shard,
        |commits|)[key] else Cell(0, 0)
    ensures Verify(h, sort, Generate(h, key, cell, snap, hashes)) == Accepted <==> Provable(commits, shard, key)
  {
    hide Verify; hide Generate; hide Snaps; hide Lists; hide Hashing; hide Sorting;
    if i :| Touches(commits, shard, key, i) {
      ProvableIff(h, sort, commits, shard, key, snap, hashes);
    } else {
      var top := Latest(commits, shard, |commits|) + 1;
      ProofVerifiesIff(h, sort, StateAt(commits, shard, top), snap, hashes, key, cell);
      QuietKeeps(commits, shard, key, 0, top);
    }
  }

  /** When heights never fall, every committed key can be proved, so no witness fails. */
  lemma RisingProvable(commits: seq<Commit>, shard: int, key: string)
    requires Rising(commits) && exists i :: Touches(commits, shard, key, i)
    ensures Provable(commits, shard, key)
  {
    var n := |commits|;
    var i :| Touches(commits, shard, key, i);
    LatestIsTop(commits, shard, n, i);
    var l := Latest(commits, shard, n);
    forall j | l + 1 <= j < n
      ensures !Touches(commits, shard, key, j)
    {
      if commits[j].shard == shard {
        LatestIsTop(commits, shard, n, j);
      }
    }
  }

  /** A key committed again at a lower height cannot be proved. */
  lemma FallingHeightFails(shard: int, key: string, v: int, w: int)
    ensures !Provable([Commit(shard, key, v, 2), Commit(shard, key, w, 1)], shard, key)
  {
    var commits := [Commit(shard, key, v, 2), Commit(shard, key, w, 1)];
    LatestIsTop(commits, shard, 2, 0);
    LatestIsTop(commits, shard, 2, 1);
    assert Touches(commits, shard, key, 1);
  }
}
