/** Small programs and the blocks made of them: what shows that a condition on access lists
    cannot be dropped. */
module Witnesses {
  import opened Basics
  import opened Transactions
  import opened SerialRows

  function Idle(): Program {
    Program(1, (h: seq<Value>) => Halt(true, Blank))
  }

  function PutOnce(k: Key, v: Value): Program {
    Program(2, (h: seq<Value>) => if h == [] then Put(k, v) else Halt(true, Blank))
  }

  function PutTwo(a: Key, v: Value, b: Key, w: Value): Program {
    Program(3, (h: seq<Value>) => if |h| == 0 then Put(a, v) else if |h| == 1 then Put(b, w) else Halt(true, Blank))
  }

  /** Succeeds exactly if the key shows the empty string. */
  function Probe(k: Key): Program {
    Program(2, (h: seq<Value>) => if h == [] then Get(k) else Halt(h[0] == Blank, Blank))
  }

  lemma IdleRuns(t: Tx, base: Rows, at: Option<Shard>)
    requires t.program == Idle()
    ensures Execute(t, base, at) == Outcome(true, Blank, {}, map[])
  {
    assert t.program.next([]) == Halt(true, Blank);
  }

  lemma PutOnceRuns(t: Tx, base: Rows, at: Option<Shard>, k: Key, v: Value)
    requires t.program == PutOnce(k, v)
    ensures Execute(t, base, at) == Outcome(true, Blank, {}, map[k := v])
  {
    var p := t.program;
    assert p.next([]) == Put(k, v) && p.next([v]) == Halt(true, Blank);
    assert [] + [v] == [v];
    assert Run(p, base, at, [v], map[][k := v]) == Outcome(true, Blank, {}, map[k := v]);
  }

  lemma PutTwoRuns(t: Tx, base: Rows, at: Option<Shard>, a: Key, v: Value, b: Key, w: Value)
    requires t.program == PutTwo(a, v, b, w)
    ensures Execute(t, base, at) == Outcome(true, Blank, {}, map[a := v][b := w])
  {
    var p := t.program;
    assert p.next([]) == Put(a, v) && p.next([v]) == Put(b, w) && p.next([v, w]) == Halt(true, Blank);
    assert [] + [v] == [v] && [v] + [w] == [v, w];
    var last := Run(p, base, at, [v, w], map[a := v][b := w]);
    assert last == Outcome(true, Blank, {}, map[a := v][b := w]);
    assert Run(p, base, at, [v], map[][a := v]) == last;
  }

  lemma ProbeRuns(t: Tx, base: Rows, at: Option<Shard>, k: Key)
    requires t.program == Probe(k)
    ensures Execute(t, base, at) == Outcome(Look(base, Row(at, k)) == Blank, Blank, {k}, map[])
  {
    var p, v := t.program, Look(base, Row(at, k));
    assert p.next([]) == Get(k) && p.next([v]) == Halt(v == Blank, Blank);
    assert [] + [v] == [v];
    assert Run(p, base, at, [v], map[]) == Outcome(v == Blank, Blank, {}, map[]);
  }

  // ---- Blocks of given shape ----

  /** Same access lists, homes, key order and seats; programs and starting rows may differ. */
  ghost predicate SameShape(c: Job, d: Job) {
    && d.home == c.home && d.rank == c.rank && d.seat == c.seat && |d.block| == |c.block|
    && forall i ::
      0 <= i < |c.block| ==> d.block[i].accessList == c.block[i].accessList && d.block[i].id == c.block[i].id
  }

  /** The block with the programs of `cast`; everybody else idles. */
  ghost function Recast(c: Job, cast: map<nat, Program>, bases: Stores): Job {
    var block := seq(|c.block|,
      x requires 0 <= x < |c.block| => c.block[x].(program := if x in cast then cast[x] else Idle()));
    c.(block := block, bases := bases)
  }

  lemma RecastShape(c: Job, cast: map<nat, Program>, bases: Stores)
    ensures SameShape(c, Recast(c, cast, bases))
    ensures forall i: nat ::
      i < |c.block| ==> Recast(c, cast, bases).block[i].program == if i in cast then cast[i] else Idle()
    ensures Recast(c, cast, bases).bases == bases
  {
  }

  lemma ShapeDeclares(c: Job, d: Job)
    requires SameShape(c, d)
    ensures forall i: nat, k :: Declares(d, i, k) <==> Declares(c, i, k)
    ensures forall i: nat, k :: Writes(d, i, k) <==> Writes(c, i, k)
    ensures forall i: nat, k :: Reads(d, i, k) <==> Reads(c, i, k)
    ensures forall k, s :: At(d, k, s) <==> At(c, k, s)
    ensures forall k, p :: Lives(d, k, p) <==> Lives(c, k, p)
    ensures forall i: nat :: i < |c.block| ==> DeclaredWrites(d.block[i]) == DeclaredWrites(c.block[i])
    ensures forall i: nat :: i < |c.block| ==> DeclaredReads(d.block[i]) == DeclaredReads(c.block[i])
  {
    forall i: nat | i < |c.block|
      ensures DeclaredReads(d.block[i]) == DeclaredReads(c.block[i])
      ensures DeclaredWrites(d.block[i]) == DeclaredWrites(c.block[i])
    {
    }
    hide DeclaredReads; hide DeclaredWrites;
  }

  lemma ShapeSound(c: Job, d: Job)
    requires SameShape(c, d) && Sound(c)
    ensures Sound(d)
  {
    ShapeDeclares(c, d);
    hide DeclaredReads; hide DeclaredWrites; hide Declares;
    forall i | 0 <= i < |d.block|
      ensures Canonical(d.block[i])
    {
      assert Canonical(c.block[i]);
    }
  }

  // ---- What such programs do ----

  /** Whatever state it runs on, the transaction writes exactly `w`. */
  ghost predicate Puts(c: Job, i: nat, w: Rows) {
    i < |c.block| && forall base, at :: Execute(c.block[i], base, at).writes == w
  }

  /** Whatever states they run on, all transactions stay within their declarations. */
  ghost predicate Harmless(c: Job) {
    forall i: nat, base, at :: i < |c.block| ==> WithinDeclaration(c.block[i], Execute(c.block[i], base, at))
  }

  /** The role a transaction plays in a recast block. */
  datatype Role = Idles | Puts1(a: Key, v: Value) | Puts2(a: Key, v: Value, b: Key, w: Value) | Probes(k: Key)

  function Play(r: Role): Program {
    match r
    case Idles => Idle()
    case Puts1(a, v) => PutOnce(a, v)
    case Puts2(a, v, b, w) => PutTwo(a, v, b, w)
    case Probes(k) => Probe(k)
  }

  function Wrote(r: Role): Rows {
    match r
    case Puts1(a, v) => map[a := v]
    case Puts2(a, v, b, w) => map[a := v][b := w]
    case _ => map[]
  }

  /** A role the access list allows. */
  ghost predicate Allowed(c: Job, i: nat, r: Role) {
    i < |c.block| && (forall k :: k in Wrote(r) ==> Writes(c, i, k)) && (r.Probes? ==> Reads(c, i, r.k))
  }

  lemma Plays(t: Tx, r: Role, base: Rows, at: Option<Shard>)
    requires t.program == Play(r)
    ensures Execute(t, base, at).writes == Wrote(r)
    ensures Execute(t, base, at).observed == if r.Probes? then {r.k} else {}
    ensures Execute(t, base, at).success == (r.Probes? ==> Look(base, Row(at, r.k)) == Blank)
  {
    match r
    case Idles => IdleRuns(t, base, at);
    case Puts1(a, v) => PutOnceRuns(t, base, at, a, v);
    case Puts2(a, v, b, w) => PutTwoRuns(t, base, at, a, v, b, w);
    case Probes(k) => ProbeRuns(t, base, at, k);
  }

  /** The block plays these roles; who has none idles. */
  ghost predicate Cast(c: Job, roles: map<nat, Role>) {
    forall i: nat :: i < |c.block| ==> c.block[i].program == Play(RoleOf(roles, i)) && Allowed(c, i, RoleOf(roles, i))
  }

  function RoleOf(roles: map<nat, Role>, i: nat): Role {
    if i in roles then roles[i] else Idles
  }

  lemma CastIsHarmless(c: Job, roles: map<nat, Role>)
    requires Cast(c, roles)
    ensures Harmless(c)
    ensures forall i: nat :: i < |c.block| ==> Puts(c, i, Wrote(RoleOf(roles, i)))
  {
    hide Execute; hide Play; hide DeclaredReads; hide DeclaredWrites;
    forall i: nat, base, at | i < |c.block|
      ensures WithinDeclaration(c.block[i], Execute(c.block[i], base, at))
      ensures Execute(c.block[i], base, at).writes == Wrote(RoleOf(roles, i))
    {
      var r := RoleOf(roles, i);
      assert c.block[i].program == Play(r) && Allowed(c, i, r);
      Plays(c.block[i], r, base, at);
    }
  }

  /** A block of the same shape that plays the roles. */
  lemma Staged(c: Job, roles: map<nat, Role>, bases: Stores) returns (d: Job)
    requires forall i: nat :: i < |c.block| ==> Allowed(c, i, RoleOf(roles, i))
    ensures SameShape(c, d) && Cast(d, roles) && d.bases == bases
  {
    var cast := map i | i in roles :: Play(roles[i]);
    d := Recast(c, cast, bases);
    RecastShape(c, cast, bases);
    ShapeDeclares(c, d);
    hide Declares; hide Writes; hide Reads; hide Recast; hide SameShape; hide Lives; hide At; hide DeclaredReads;
    hide DeclaredWrites;
    forall i: nat | i < |d.block|
      ensures d.block[i].program == Play(RoleOf(roles, i)) && Allowed(d, i, RoleOf(roles, i))
    {
      assert Allowed(c, i, RoleOf(roles, i));
    }
  }

  // ---- Their serial run ----

  /** Nothing is stored over a stretch of transactions that write nothing. */
  lemma {:induction false} Steady(c: Job, rule: Rule, lo: nat, hi: nat, p: Place)
    requires lo <= hi <= |c.block| && forall i: nat :: lo <= i < hi ==> Puts(c, i, map[])
    ensures ValueAt(c, rule, hi, p) == ValueAt(c, rule, lo, p)
  {
    hide ValueAt; hide Execute; hide Stored; hide WithinDeclaration;
    if lo < hi {
      Steady(c, rule, lo, hi - 1, p);
      ValueStep(c, rule, hi - 1, p);
      assert Puts(c, hi - 1, map[]);
      StoredNone(c, map[], p, ValueAt(c, rule, hi - 1, p));
    }
  }

  /** The effect of a transaction that always succeeds in writing `w`. */
  lemma StoresIts(c: Job, rule: Rule, roles: map<nat, Role>, i: nat, p: Place)
    requires Cast(c, roles) && i < |c.block| && !RoleOf(roles, i).Probes?
    ensures ValueAt(c, rule, i + 1, p) == Stored(c, Wrote(RoleOf(roles, i)), p, ValueAt(c, rule, i, p))
  {
    CastIsHarmless(c, roles);
    Plays(c.block[i], RoleOf(roles, i), ViewAt(c, rule, i), None);
    hide ValueAt; hide Execute; hide Stored; hide WithinDeclaration; hide ViewAt; hide Cast; hide Wrote;
    ValueStep(c, rule, i, p);
    assert WithinDeclaration(c.block[i], Execute(c.block[i], ViewAt(c, rule, i), None));
  }

  /** What a probing transaction finds in the serial run. */
  lemma ProbesSerial(c: Job, rule: Rule, roles: map<nat, Role>, i: nat, k: Key)
    requires Cast(c, roles) && i < |c.block| && RoleOf(roles, i) == Probes(k) && k in c.home
    ensures OutcomeAt(c, rule, i).success <==> ValueAt(c, rule, i, Where(c, k)) == Blank
  {
    hide ValueAt; hide Execute; hide ViewAt; hide Play;
    Plays(c.block[i], Probes(k), ViewAt(c, rule, i), None);
    ViewShows(c, rule, i, k);
  }

  /** When only one transaction writes, its write is all that changes. */
  lemma OneStores(c: Job, rule: Rule, roles: map<nat, Role>, j: nat, n: nat, p: Place)
    requires Cast(c, roles) && j < |c.block| && n <= |c.block| && !RoleOf(roles, j).Probes?
    requires forall x: nat :: x != j ==> Wrote(RoleOf(roles, x)) == map[]
    ensures ValueAt(c, rule, n, p) == if n <= j then Peek(c.bases, p) else Stored(c, Wrote(RoleOf(roles, j)), p,
        Peek(c.bases, p))
  {
    hide ValueAt; hide Execute; hide Stored; hide Cast; hide Wrote; hide RoleOf; hide Puts; hide Peek; hide Harmless;
    CastIsHarmless(c, roles);
    StartValue(c, rule, p);
    forall x: nat | x < |c.block| && x != j
      ensures Puts(c, x, map[])
    {
      assert Puts(c, x, Wrote(RoleOf(roles, x)));
    }
    if n <= j {
      Steady(c, rule, 0, n, p);
    } else {
      Steady(c, rule, 0, j, p);
      StoresIts(c, rule, roles, j, p);
      Steady(c, rule, j + 1, n, p);
    }
  }

  /** When nobody writes, nothing changes. */
  lemma NobodyStores(c: Job, rule: Rule, roles: map<nat, Role>, n: nat, p: Place)
    requires Cast(c, roles) && n <= |c.block| && forall x: nat :: Wrote(RoleOf(roles, x)) == map[]
    ensures ValueAt(c, rule, n, p) == Peek(c.bases, p)
  {
    CastIsHarmless(c, roles);
    StartValue(c, rule, p);
    hide ValueAt; hide Execute; hide Stored; hide Cast; hide Wrote; hide RoleOf; hide Puts; hide Peek; hide Harmless;
    Steady(c, rule, 0, n, p);
  }
}
