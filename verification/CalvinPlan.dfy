/** The consensus-bound version plan of stateless Calvin: every access names the version its
    key had just before the transaction, and every declared write the version it produces. */
module CalvinPlan {
  import opened Basics
  import opened Transactions

  const NAMESPACE: nat := 0xFFFF_FFFF

  /** Both halves of the 64-bit version fit. */
  predicate Fits(height: nat, index: nat) {
    height <= NAMESPACE && index + 1 <= NAMESPACE
  }

  /** `calvinConsensusVersion`: the height in the upper and the one-based index in the lower
      32 bits. The halves do not overlap, so the bitwise or is a sum. */
  function Version(height: nat, index: nat): nat {
    height * 0x1_0000_0000 + index + 1
  }

  /** On 64-bit words, shifting and or-ing is that sum. */
  lemma ShiftOrIsSum(height: bv64, slot: bv64)
    requires height <= 0xFFFF_FFFF && slot <= 0xFFFF_FFFF
    ensures (height << 32) | slot == height * 0x1_0000_0000 + slot
  {
  }

  /** Versions are non-zero, fit in 64 bits, order transactions by block and then by place in
      the block, and never collide. */
  lemma VersionsOrdered(h1: nat, i1: nat, h2: nat, i2: nat)
    requires Fits(h1, i1) && Fits(h2, i2)
    ensures 0 < Version(h1, i1) < 0x1_0000_0000_0000_0000
    ensures Version(h1, i1) < Version(h2, i2) <==> h1 < h2 || (h1 == h2 && i1 < i2)
    ensures Version(h1, i1) == Version(h2, i2) <==> h1 == h2 && i1 == i2
  {
    if h1 < h2 {
      assert h1 * 0x1_0000_0000 + 0x1_0000_0000 <= h2 * 0x1_0000_0000;
    } else if h2 < h1 {
      assert h2 * 0x1_0000_0000 + 0x1_0000_0000 <= h1 * 0x1_0000_0000;
    }
  }

  /** The namespace check passes exactly if height and place can be read off the 64-bit version. */
  lemma FitsExactly(height: nat, index: nat)
    ensures Fits(height, index) <==>
      && Version(height, index) < 0x1_0000_0000_0000_0000
      && Version(height, index) / 0x1_0000_0000 == height && Version(height, index) % 0x1_0000_0000 == index + 1
  {
  }

  // ---- What the plan should say ----

  /** The greatest transaction before `i` that declares a write to `k`. */
  function LastWriter(block: seq<Tx>, i: nat, k: Key): Option<nat>
    requires i <= |block|
  {
    if i == 0 then None
    else if k in DeclaredWrites(block[i - 1]) then Some(i - 1)
    else LastWriter(block, i - 1, k)
  }

  lemma {:induction false} LastWriterIsGreatest(block: seq<Tx>, i: nat, k: Key)
    requires i <= |block|
    ensures match LastWriter(block, i, k)
            case None => forall j :: 0 <= j < i ==> k !in DeclaredWrites(block[j])
            case Some(w) => w < i && k in DeclaredWrites(block[w]) && forall j ::
              w < j < i ==> k !in DeclaredWrites(block[j])
  {
    hide DeclaredWrites;
    if i > 0 && k !in DeclaredWrites(block[i - 1]) {
      LastWriterIsGreatest(block, i - 1, k);
    }
  }

  /** Zero, which is no version, stands for the value at block start. */
  function RequiredVersion(height: nat, block: seq<Tx>, i: nat, k: Key): nat
    requires i <= |block|
  {
    match LastWriter(block, i, k)
    case None => 0
    case Some(w) => Version(height, w)
  }

  datatype Dependency = Dependency(key: Key, required: nat, produced: nat)

  datatype Binding = Binding(txId: Id, index: nat, dependencies: seq<Dependency>)

  datatype Plan = Plan(height: nat, bindings: seq<Binding>, bindingCount: nat)

  function DependencyOf(height: nat, block: seq<Tx>, i: nat, a: Access): Dependency
    requires i < |block|
  {
    Dependency(a.key, RequiredVersion(height, block, i, a.key), if IsWriteMode(a.mode) then Version(height, i) else 0)
  }

  function BindingOf(height: nat, block: seq<Tx>, i: nat): Binding
    requires i < |block|
  {
    Binding(block[i].id, i,
      seq(|block[i].accessList|,
      n requires 0 <= n < |block[i].accessList| => DependencyOf(height, block, i, block[i].accessList[n])))
  }

  function BindingCount(block: seq<Tx>, n: nat): nat
    requires n <= |block|
  {
    if n == 0 then 0 else BindingCount(block, n - 1) + |block[n - 1].accessList|
  }

  predicate Plannable(height: nat, block: seq<Tx>) {
    forall i :: 0 <= i < |block| ==> Canonical(block[i]) && Fits(height, i)
  }

  function PlanOf(height: nat, block: seq<Tx>): Plan {
    Plan(height, seq(|block|, i requires 0 <= i < |block| => BindingOf(height, block, i)), BindingCount(block, |block|))
  }

  // ---- Building it ----

  /** The running table holds, for every key written so far, the version of its last writer. */
  ghost predicate Tracks(lastWriter: map<Key, nat>, height: nat, block: seq<Tx>, i: nat)
    requires i <= |block|
  {
    forall k :: if k in lastWriter then LastWriter(block, i, k).Some?
      && lastWriter[k] == RequiredVersion(height, block, i, k)
                else LastWriter(block, i, k).None?
  }

  method BindOne(height: nat, block: seq<Tx>, i: nat, lastWriter: map<Key, nat>) returns (deps: seq<Dependency>)
    requires i < |block| && Tracks(lastWriter, height, block, i)
    ensures deps == BindingOf(height, block, i).dependencies
  {
    deps := [];
    var accesses := block[i].accessList;
    hide DeclaredWrites; hide LastWriter;
    for n := 0 to |accesses|
      invariant |deps| == n
      invariant forall m :: 0 <= m < n ==> deps[m] == DependencyOf(height, block, i, accesses[m])
    {
      var a := accesses[n];
      var required := if a.key in lastWriter then lastWriter[a.key] else 0;
      deps := deps + [Dependency(a.key, required, if IsWriteMode(a.mode) then Version(height, i) else 0)];
    }
  }

  method NoteWrites(height: nat, block: seq<Tx>, i: nat, lastWriter: map<Key, nat>) returns (lastWriter': map<Key, nat>)
    requires i < |block| && Tracks(lastWriter, height, block, i)
    ensures Tracks(lastWriter', height, block, i + 1)
  {
    lastWriter' := lastWriter;
    var accesses := block[i].accessList;
    for n := 0 to |accesses|
      invariant forall m :: 0 <= m < n && IsWriteMode(accesses[m].mode) ==>
        accesses[m].key in lastWriter' && lastWriter'[accesses[m].key] == Version(height, i)
      invariant forall k :: k in lastWriter' ==>
        || (k in DeclaredWrites(block[i]) && lastWriter'[k] == Version(height, i))
        || (k in lastWriter && lastWriter'[k] == lastWriter[k])
      invariant forall k :: k in lastWriter ==> k in lastWriter'
    {
      if IsWriteMode(accesses[n].mode) {
        lastWriter' := lastWriter'[accesses[n].key := Version(height, i)];
      }
    }
    forall k | k in DeclaredWrites(block[i])
      ensures k in lastWriter' && lastWriter'[k] == Version(height, i)
    {
      var a :| a in accesses && IsWriteMode(a.mode) && a.key == k;
      var m :| 0 <= m < |accesses| && accesses[m] == a;
    }
  }

  /** `buildCalvinConsensusPlan`: refuses a block with a non-canonical access list or outside
      the version namespace, and otherwise binds every access to its last writer. */
  method BuildPlan(height: nat, block: seq<Tx>) returns (r: Option<Plan>)
    ensures r.Some? <==> Plannable(height, block)
    ensures r.Some? ==> r.value == PlanOf(height, block)
  {
    hide Canonical; hide DeclaredWrites; hide DependencyOf; hide BindingOf;
    var lastWriter: map<Key, nat> := map[];
    var bindings: seq<Binding> := [];
    var count := 0;
    for i := 0 to |block|
      invariant forall j :: 0 <= j < i ==> Canonical(block[j]) && Fits(height, j)
      invariant Tracks(lastWriter, height, block, i)
      invariant |bindings| == i && (forall j :: 0 <= j < i ==> bindings[j] == BindingOf(height, block, j))
      invariant count == BindingCount(block, i)
    {
      if !Canonical(block[i]) || !Fits(height, i) {
        return None;
      }
      var deps := BindOne(height, block, i, lastWriter);
      lastWriter := NoteWrites(height, block, i, lastWriter);
      BindingShape(height, block, i);
      bindings := bindings + [Binding(block[i].id, i, deps)];
      count := count + |deps|;
    }
    assert bindings == PlanOf(height, block).bindings;
    return Some(Plan(height, bindings, count));
  }

  lemma BindingShape(height: nat, block: seq<Tx>, i: nat)
    requires i < |block|
    ensures var b := BindingOf(height, block, i);
      b.txId == block[i].id && b.index == i && |b.dependencies| == |block[i].accessList|
  {
  }

  // ---- Verifying a supplied plan ----

  /** The plan a block carries: the decoded payload, if it decodes, the digest stored inside
      it and the digest on the envelope. */
  datatype Envelope = Envelope(payload: Option<Plan>, innerDigest: Token, outerDigest: Token)

  ghost predicate Injective(digest: Plan -> Token) {
    forall p, q :: digest(p) == digest(q) ==> p == q
  }

  /** `VerifyBlockPlan` after the payload's own digest was found intact. */
  predicate Accepts(height: nat, block: seq<Tx>, e: Envelope, digest: Plan -> Token) {
    && e.payload.Some? && e.innerDigest == e.outerDigest
    && Plannable(height, block)
    && var expected := PlanOf(height, block);
       e.innerDigest == digest(expected) && digest(e.payload.value) == digest(expected)
  }

  /** With a collision-free digest, a supplied plan is accepted exactly when it is the rebuilt
      plan and both digests are its digest. */
  lemma AcceptsOnlyRebuilt(height: nat, block: seq<Tx>, e: Envelope, digest: Plan -> Token)
    requires Injective(digest)
    ensures Accepts(height, block, e, digest) <==>
            Plannable(height, block) && e.payload == Some(PlanOf(height, block))
              && e.innerDigest == e.outerDigest == digest(PlanOf(height, block))
  {
  }

  /** An accepted plan's dependency for an access names the version of the greatest earlier
      writer, or zero if there is none, whatever the block carried. */
  lemma AcceptedBindsLastWriter(height: nat, block: seq<Tx>, e: Envelope, digest: Plan -> Token, i: nat, n: nat)
    requires Injective(digest) && Accepts(height, block, e, digest) && i < |block| && n < |block[i].accessList|
    ensures i < |e.payload.value.bindings| && n < |e.payload.value.bindings[i].dependencies|
    ensures var d := e.payload.value.bindings[i].dependencies[n];
            && d.key == block[i].accessList[n].key
            && (d.required == 0 <==> forall j :: 0 <= j < i ==> d.key !in DeclaredWrites(block[j]))
            && (forall w :: 0 <= w < i
                  && d.key in DeclaredWrites(block[w]) && (forall j :: w < j < i ==> d.key !in DeclaredWrites(block[j]))
                  ==> d.required == Version(height, w))
            && d.produced == if IsWriteMode(block[i].accessList[n].mode) then Version(height, i) else 0
  {
    hide DeclaredWrites; hide Canonical;
    AcceptsOnlyRebuilt(height, block, e, digest);
    LastWriterIsGreatest(block, i, block[i].accessList[n].key);
  }
}
