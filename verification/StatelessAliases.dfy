/** Why stateless Calvin needs the rows of a block to be aligned: for any access lists that are
    not, there are programs and starting rows for which a complete run is not serial. */
module StatelessAliases {
  import opened Basics
  import opened Transactions
  import opened SerialRows
  import opened Witnesses
  import opened CalvinPlan
  import opened CalvinStateless
  import opened StatelessRows

  // ---- Staged blocks below a position ----

  /** Roles and starting rows for the transactions before some position. */
  datatype Trick = Trick(roles: map<nat, Role>, bases: Stores)

  /** Roles are allowed, none probes, and a pair of puts starts with a plain key. */
  ghost predicate Usable(c: Job, m: nat, t: Trick) {
    && (forall x: nat :: x < |c.block| ==> Allowed(c, x, RoleOf(t.roles, x)) && !RoleOf(t.roles, x).Probes?)
    && (forall x: nat :: RoleOf(t.roles, x).Puts2? ==> RoleOf(t.roles, x).a.Plain?)
    && (forall x :: x in t.roles ==> x < m)
  }

  /** `d` has the shape of `c` and plays the trick up to position `m`. */
  ghost predicate PlaysTo(c: Job, d: Job, m: nat, t: Trick) {
    && SameShape(c, d) && d.bases == t.bases && |d.block| == |d.seat| && m <= |d.block|
    && forall x: nat :: x < m ==> d.block[x].program == Play(RoleOf(t.roles, x))
  }

  /** What a transaction with a role does in the serial and in the stateless run. */
  lemma RoleActs(d: Job, x: nat, r: Role)
    requires x < |d.block| == |d.seat| && d.block[x].program == Play(r) && Allowed(d, x, r) && !r.Probes?
    ensures WithinDeclaration(d.block[x], Got(d, x)) && Got(d, x).success && Got(d, x).writes == Wrote(r)
    ensures forall p :: ValueAt(d, Dropping, x + 1, p) == Stored(d, Wrote(r), p, ValueAt(d, Dropping, x, p))
  {
    Plays(d.block[x], r, Picture(d, x), Some(d.seat[x]));
    Plays(d.block[x], r, ViewAt(d, Dropping, x), None);
    hide Execute; hide Play; hide ValueAt; hide ViewAt; hide Picture; hide DeclaredReads; hide DeclaredWrites;
    hide Stored;
    forall p
      ensures ValueAt(d, Dropping, x + 1, p) == Stored(d, Wrote(r), p, ValueAt(d, Dropping, x, p))
    {
      ValueStep(d, Dropping, x, p);
    }
  }

  lemma ShapePlace(c: Job, d: Job, a: Key, b: Key)
    requires SameShape(c, d)
    ensures SamePlace(d, a, b) <==> SamePlace(c, a, b)
    ensures a in c.home ==> a in d.home && Where(d, a) == Where(c, a)
    ensures RankOf(d, a) == RankOf(c, a)
  {
  }

  lemma ShapeSlots(c: Job, d: Job, i: nat, k: Key)
    requires SameShape(c, d) && i < |c.block| == |c.seat|
    ensures HasSlot(d, i, k) <==> HasSlot(c, i, k)
    ensures Stands(d, i, k) == Stands(c, i, k)
  {
    ShapeDeclares(c, d);
    hide DeclaredReads; hide DeclaredWrites; hide Declares; hide Reads; hide Writes; hide Lives;
    assert d.seat == c.seat && d.rank == c.rank;
  }

  lemma TrickRole(c: Job, d: Job, m: nat, t: Trick, x: nat)
    requires Usable(c, m, t) && PlaysTo(c, d, m, t) && x < m
    ensures d.block[x].program == Play(RoleOf(t.roles, x)) && Allowed(d, x, RoleOf(t.roles, x))
    ensures !RoleOf(t.roles, x).Probes?
  {
    ShapeDeclares(c, d);
    hide DeclaredReads; hide DeclaredWrites; hide Declares; hide Reads; hide Writes; hide Lives; hide Play;
    assert Allowed(c, x, RoleOf(t.roles, x));
  }

  /** One step of a trick: the serial run stores the role's writes. */
  lemma TrickStep(c: Job, d: Job, m: nat, t: Trick, x: nat)
    requires Usable(c, m, t) && PlaysTo(c, d, m, t) && x < m
    ensures WithinDeclaration(d.block[x], Got(d, x)) && Got(d, x).success
    ensures Got(d, x).writes == Wrote(RoleOf(t.roles, x))
    ensures forall p :: ValueAt(d, Dropping, x + 1, p) == Stored(d, Wrote(RoleOf(t.roles, x)), p,
        ValueAt(d, Dropping, x, p))
  {
    hide Usable; hide PlaysTo; hide Got; hide ValueAt; hide Stored; hide Allowed; hide Play; hide RoleOf;
    assert x < |d.block| == |d.seat| by { InRange(c, d, m, t, x); }
    TrickRole(c, d, m, t, x);
    RoleActs(d, x, RoleOf(t.roles, x));
  }

  lemma InRange(c: Job, d: Job, m: nat, t: Trick, x: nat)
    requires PlaysTo(c, d, m, t) && x < m
    ensures x < |d.block| == |d.seat| && |c.block| == |d.block| && |c.seat| == |d.seat| && d.bases == t.bases
    ensures SameShape(c, d)
  {
  }

  /** An idle transaction changes nothing and repeats what it finds. */
  lemma IdleStep(c: Job, d: Job, m: nat, t: Trick, x: nat, k: Key)
    requires Usable(c, m, t) && PlaysTo(c, d, m, t) && x < m && Wrote(RoleOf(t.roles, x)) == map[]
    ensures forall p :: ValueAt(d, Dropping, x + 1, p) == ValueAt(d, Dropping, x, p)
    ensures Lost(d, x, k)
  {
    InRange(c, d, m, t, x);
    TrickStep(c, d, m, t, x);
    hide Usable; hide PlaysTo; hide Got; hide ValueAt; hide Stored; hide RoleOf; hide Wrote;
    forall p
      ensures ValueAt(d, Dropping, x + 1, p) == ValueAt(d, Dropping, x, p)
    {
      StoredNone(d, map[], p, ValueAt(d, Dropping, x, p));
    }
  }

  /** As long as nobody writes and everything is blank, every value is blank. */
  lemma {:induction false} AllBlank(c: Job, d: Job, m: nat, t: Trick, n: nat, k: Key)
    requires Usable(c, m, t) && PlaysTo(c, d, m, t) && n <= m && t.bases == map[]
    requires forall x: nat :: x < n ==> Wrote(RoleOf(t.roles, x)) == map[]
    ensures Val(d, n, k) == Blank && forall p :: ValueAt(d, Dropping, n, p) == Blank
    decreases n, 0
  {
    hide Usable; hide PlaysTo; hide Got; hide ValueAt; hide RoleOf; hide Wrote; hide Lost; hide DeclaredWrites;
    hide Pub; hide Picture;
    if n == 0 {
      BlankStart(c, d, m, t, n, k);
    } else {
      var x := n - 1;
      InRange(c, d, m, t, x);
      AllBlank(c, d, m, t, x, k);
      IdleStep(c, d, m, t, x, k);
      BlankPub(c, d, m, t, x, k);
      ValStep(d, x, k);
      assert x + 1 == n;
      forall p
        ensures ValueAt(d, Dropping, n, p) == Blank
      {
        assert ValueAt(d, Dropping, x, p) == Blank;
      }
    }
  }

  lemma BlankStart(c: Job, d: Job, m: nat, t: Trick, n: nat, k: Key)
    requires PlaysTo(c, d, m, t) && t.bases == map[] && n == 0
    ensures Val(d, n, k) == Blank && forall p :: ValueAt(d, Dropping, n, p) == Blank
  {
  }

  lemma {:induction false} BlankPub(c: Job, d: Job, m: nat, t: Trick, x: nat, k: Key)
    requires Usable(c, m, t) && PlaysTo(c, d, m, t) && x < m && t.bases == map[]
    requires forall y: nat :: y < x ==> Wrote(RoleOf(t.roles, y)) == map[]
    requires x < |d.block| == |d.seat| && Lost(d, x, k)
    ensures Pub(d, x, k) == Blank
    decreases x, 1
  {
    hide Usable; hide PlaysTo; hide Got; hide ValueAt; hide RoleOf; hide Wrote; hide Lost; hide DeclaredWrites;
    hide DeclaredReads; hide Picture; hide Val; hide HasSlot; hide Stands;
    PictureShows(d, x, k);
    if HasSlot(d, x, k) {
      AllBlank(c, d, m, t, x, Stands(d, x, k));
    } else {
      AllBlank(c, d, m, t, x, k);
    }
  }

  // ---- Making a version show what it should not ----

  ghost function Mark(k: Key): Value {
    Text(k.name)
  }

  /** Whoever plays the trick gives the version of `k` before `m` a mark, and every row but that
      of `k` stays blank. */
  ghost predicate Feeds(c: Job, m: nat, k: Key, t: Trick) {
    forall d ::
      PlaysTo(c, d, m, t) ==> Val(d, m, k) == Mark(k) && forall p ::
        k in c.home && p != Where(c, k) ==> ValueAt(d, Dropping, m, p) == Blank
  }

  lemma SoloUsable(c: Job, m: nat, x: nat, r: Role, bases: Stores)
    requires x < m && Allowed(c, x, r) && !r.Probes? && (r.Puts2? ==> r.a.Plain?)
    ensures Usable(c, m, Trick(map[x := r], bases))
  {
  }

  lemma NoneUsable(c: Job, m: nat, bases: Stores)
    ensures Usable(c, m, Trick(map[], bases))
  {
  }

  lemma {:induction false} Feed(c: Job, m: nat, k: Key) returns (t: Trick)
    requires |c.block| == |c.seat| && m <= |c.block| && k in c.home
    ensures Usable(c, m, t) && Feeds(c, m, k, t)
  {
    hide Usable; hide PlaysTo; hide Feeds; hide DeclaredWrites; hide Allowed;
    if m == 0 {
      t := Trick(map[], map[c.home[k] := map[Qualify(c.home[k], k) := Mark(k)]]);
      NoneUsable(c, m, t.bases);
      FedAtStart(c, k, t);
    } else if k in DeclaredWrites(c.block[m - 1]) {
      t := Trick(map[m - 1 := Puts1(k, Mark(k))], map[]);
      PutAllowed(c, m - 1, k, Mark(k));
      SoloUsable(c, m, m - 1, Puts1(k, Mark(k)), map[]);
      FedByWriter(c, m, k, t);
    } else {
      t := Feed(c, m - 1, k);
      Later(c, m - 1, t);
      FedLater(c, m, k, t);
    }
  }

  lemma PutAllowed(c: Job, x: nat, k: Key, v: Value)
    requires Writes(c, x, k)
    ensures Allowed(c, x, Puts1(k, v))
  {
  }

  lemma Later(c: Job, m: nat, t: Trick)
    requires Usable(c, m, t)
    ensures Usable(c, m + 1, t)
  {
  }

  lemma Shorter(c: Job, d: Job, m: nat, t: Trick)
    requires PlaysTo(c, d, m + 1, t)
    ensures PlaysTo(c, d, m, t)
  {
  }

  lemma FedAtStart(c: Job, k: Key, t: Trick)
    requires k in c.home && t == Trick(map[], map[c.home[k] := map[Qualify(c.home[k], k) := Mark(k)]])
    ensures Feeds(c, 0, k, t)
  {
    forall d | PlaysTo(c, d, 0, t)
      ensures Val(d, 0, k) == Mark(k) && forall p :: p != Where(c, k) ==> ValueAt(d, Dropping, 0, p) == Blank
    {
      ShapePlace(c, d, k, k);
    }
  }

  lemma FedByWriter(c: Job, m: nat, k: Key, t: Trick)
    requires m > 0 && m <= |c.block| && k in c.home && k in DeclaredWrites(c.block[m - 1])
    requires t == Trick(map[m - 1 := Puts1(k, Mark(k))], map[]) && Usable(c, m, t)
    ensures Feeds(c, m, k, t)
  {
    hide Usable; hide Got; hide ValueAt; hide DeclaredWrites; hide Mark; hide Stored; hide Val; hide Qualify;
    var x := m - 1;
    forall d | PlaysTo(c, d, m, t)
      ensures Val(d, m, k) == Mark(k) && forall p :: p != Where(c, k) ==> ValueAt(d, Dropping, m, p) == Blank
    {
      InRange(c, d, m, t, x);
      ShapeDeclares(c, d);
      ShapePlace(c, d, k, k);
      TrickStep(c, d, m, t, x);
      hide SameShape;
      AllBlank(c, d, m, t, x, k);
      WriterVal(d, x, k, map[k := Mark(k)], Mark(k));
      forall p | p != Where(c, k)
        ensures ValueAt(d, Dropping, m, p) == Blank
      {
        StoredNone(d, map[k := Mark(k)], p, Blank);
        assert ValueAt(d, Dropping, x + 1, p) == Stored(d, map[k := Mark(k)], p, ValueAt(d, Dropping, x, p));
      }
    }
  }

  /** A transaction that writes `k` publishes what it writes. */
  lemma WriterVal(d: Job, x: nat, k: Key, w: Rows, v: Value)
    requires x < |d.block| == |d.seat| && k in DeclaredWrites(d.block[x]) && WithinDeclaration(d.block[x], Got(d, x))
    requires Got(d, x).success && Got(d, x).writes == w
    requires k in w && w[k] == v
    ensures Val(d, x + 1, k) == v
  {
    hide Got; hide DeclaredWrites; hide WithinDeclaration; hide Picture; hide Val;
    assert CountsAs(w, k, v);
    assert !Lost(d, x, k);
    assert Pub(d, x, k) == v;
    ValStep(d, x, k);
  }

  lemma FedLater(c: Job, m: nat, k: Key, t: Trick)
    requires m > 0 && m <= |c.block| && k in c.home && k !in DeclaredWrites(c.block[m - 1]) && Usable(c, m - 1, t)
    requires Usable(c, m, t) && Feeds(c, m - 1, k, t)
    ensures Feeds(c, m, k, t)
  {
    hide Got; hide ValueAt; hide DeclaredWrites; hide Mark; hide Lost; hide Pub; hide Where;
    var x := m - 1;
    assert Wrote(RoleOf(t.roles, x)) == map[] by { assert x !in t.roles; }
    hide Usable; hide RoleOf;
    forall d | PlaysTo(c, d, m, t)
      ensures Val(d, m, k) == Mark(k) && forall p :: p != Where(c, k) ==> ValueAt(d, Dropping, m, p) == Blank
    {
      InRange(c, d, m, t, x);
      ShapeDeclares(c, d);
      Shorter(c, d, x, t);
      IdleStep(c, d, m, t, x, k);
      ValStep(d, x, k);
      assert x + 1 == m;
      forall p | p != Where(c, k)
        ensures ValueAt(d, Dropping, m, p) == Blank
      {
        assert ValueAt(d, Dropping, x, p) == Blank;
      }
    }
  }

  /** Whoever plays the trick has a version of `k` before `m` that is blank exactly if its row
      is not. */
  ghost predicate Fools(c: Job, m: nat, k: Key, t: Trick) {
    forall d :: PlaysTo(c, d, m, t) && k in d.home
      ==> ((Val(d, m, k) == Blank) != (StatelessRows.Serial(d, m, k) == Blank))
  }

  lemma {:induction false} Fool(c: Job, m: nat, k: Key) returns (t: Trick)
    requires Sound(c) && m <= |c.block| && k in c.home && !Fresh(c, m, k)
    ensures Usable(c, m, t) && Fools(c, m, k, t)
  {
    assert |c.block| == |c.seat|;
    hide Sound; hide Usable; hide PlaysTo; hide Fools; hide DeclaredWrites; hide Allowed; hide WritesOther;
    hide HasSlot; hide Stands;
    var x := m - 1;
    if k in DeclaredWrites(c.block[x]) {
      if WritesOther(c, x, k) && !k.Plain? {
        t := FoolByOther(c, x, k);
      } else if WritesOther(c, x, k) && !OthersFirst(c, x, k) {
        t := FoolByOrder(c, x, k);
      } else if HasSlot(c, x, k) {
        assert OthersFirst(c, x, k) by { WhenNoOther(c, x, k); }
        GoodMeans(c, x, k);
        t := FoolBySlot(c, x, k);
      } else {
        assert OthersFirst(c, x, k) by { WhenNoOther(c, x, k); }
        GoodMeans(c, x, k);
        t := Fool(c, x, k);
        Later(c, x, t);
        StillFooled(c, m, k, t);
      }
    } else if WritesOther(c, x, k) {
      t := FoolByOther(c, x, k);
    } else {
      t := Fool(c, x, k);
      Later(c, x, t);
      StillFooled(c, m, k, t);
    }
  }

  ghost predicate OthersFirst(c: Job, i: nat, k: Key) {
    forall a :: a != k && Writes(c, i, a) && SamePlace(c, a, k) ==> RankOf(c, a) < RankOf(c, k)
  }

  lemma WhenNoOther(c: Job, i: nat, k: Key)
    ensures !WritesOther(c, i, k) ==> OthersFirst(c, i, k)
  {
  }

  lemma GoodMeans(c: Job, i: nat, k: Key)
    requires i < |c.block| == |c.seat| && !Good(c, i, k) && OthersFirst(c, i, k) && (WritesOther(c, i, k) ==> k.Plain?)
    ensures if HasSlot(c, i, k) then !SamePlace(c, Stands(c, i, k), k) else !Fresh(c, i, k)
  {
    hide WritesOther; hide HasSlot; hide Stands; hide Fresh;
  }

  /** Another name of the row is written, and the version of `k` does not show it. */
  lemma FoolByOther(c: Job, x: nat, k: Key) returns (t: Trick)
    requires |c.block| == |c.seat| && x < |c.block| && k in c.home && WritesOther(c, x, k)
    requires (!Writes(c, x, k) || !k.Plain?)
    ensures Usable(c, x + 1, t) && Fools(c, x + 1, k, t)
  {
    var a :| a != k && Writes(c, x, a) && SamePlace(c, a, k);
    hide DeclaredWrites; hide DeclaredReads; hide WritesOther;
    t := Trick(map[x := Puts1(a, Mark(a))], map[]);
    PutAllowed(c, x, a, Mark(a));
    SoloUsable(c, x + 1, x, Puts1(a, Mark(a)), map[]);
    forall d | PlaysTo(c, d, x + 1, t) && k in d.home
      ensures (Val(d, x + 1, k) == Blank) != (StatelessRows.Serial(d, x + 1, k) == Blank)
    {
      OtherFools(c, d, x, k, a, t);
    }
  }

  lemma OtherFools(c: Job, d: Job, x: nat, k: Key, a: Key, t: Trick)
    requires x < |c.block| == |c.seat| && k in c.home && a != k && Writes(c, x, a) && SamePlace(c, a, k)
    requires (!Writes(c, x, k) || !k.Plain?)
    requires t == Trick(map[x := Puts1(a, Mark(a))], map[]) && Usable(c, x + 1, t) && PlaysTo(c, d, x + 1, t)
    requires k in d.home
    ensures Val(d, x + 1, k) == Blank && StatelessRows.Serial(d, x + 1, k) == Mark(a)
  {
    hide Usable; hide PlaysTo; hide Got; hide ValueAt; hide DeclaredWrites; hide DeclaredReads; hide Stored; hide Pub;
    hide Qualify;
    InRange(c, d, x + 1, t, x);
    ShapeDeclares(c, d);
    ShapePlace(c, d, a, k);
    TrickStep(c, d, x + 1, t, x);
    AllBlank(c, d, x + 1, t, x, k);
    hide SameShape;
    StoredLast(d, map[a := Mark(a)], Where(d, k), a, ValueAt(d, Dropping, x, Where(d, k)));
    if Writes(c, x, k) {
      assert !IsWritten(map[a := Mark(a)], k);
      BlankPub(c, d, x + 1, t, x, k);
    }
  }

  /** Both names are written and the other one comes last. */
  lemma FoolByOrder(c: Job, x: nat, k: Key) returns (t: Trick)
    requires Sound(c) && x < |c.block| && k in c.home && Writes(c, x, k) && k.Plain? && !OthersFirst(c, x, k)
    ensures Usable(c, x + 1, t) && Fools(c, x + 1, k, t)
  {
    var a :| a != k && Writes(c, x, a) && SamePlace(c, a, k) && RankOf(c, a) >= RankOf(c, k);
    assert RankOf(c, a) > RankOf(c, k);
    hide Sound; hide DeclaredWrites; hide DeclaredReads; hide RankOf; hide OthersFirst;
    t := Trick(map[x := Puts2(k, Mark(k), a, Blank)], map[]);
    assert Allowed(c, x, Puts2(k, Mark(k), a, Blank));
    SoloUsable(c, x + 1, x, Puts2(k, Mark(k), a, Blank), map[]);
    forall d | PlaysTo(c, d, x + 1, t) && k in d.home
      ensures (Val(d, x + 1, k) == Blank) != (StatelessRows.Serial(d, x + 1, k) == Blank)
    {
      OrderFools(c, d, x, k, a, t);
    }
  }

  lemma OrderFools(c: Job, d: Job, x: nat, k: Key, a: Key, t: Trick)
    requires x < |c.block| && k in c.home && a != k && Writes(c, x, a) && Writes(c, x, k) && SamePlace(c, a, k)
    requires RankOf(c, a) > RankOf(c, k)
    requires t == Trick(map[x := Puts2(k, Mark(k), a, Blank)], map[]) && Usable(c, x + 1, t) && PlaysTo(c, d, x + 1, t)
    requires k in d.home
    ensures Val(d, x + 1, k) == Mark(k) && StatelessRows.Serial(d, x + 1, k) == Blank
  {
    hide Usable; hide PlaysTo; hide Got; hide ValueAt; hide DeclaredWrites; hide DeclaredReads; hide Stored; hide Val;
    hide Qualify; hide RankOf;
    InRange(c, d, x + 1, t, x);
    ShapeDeclares(c, d);
    ShapePlace(c, d, a, k);
    ShapePlace(c, d, k, a);
    TrickStep(c, d, x + 1, t, x);
    hide SameShape;
    var w := map[k := Mark(k)][a := Blank];
    WriterVal(d, x, k, w, Mark(k));
    assert ComesLast(d, w, Where(d, k), a);
    StoredLast(d, w, Where(d, k), a, ValueAt(d, Dropping, x, Where(d, k)));
  }

  /** A no-op repeats the value of a read that has the row name but is another row. */
  lemma FoolBySlot(c: Job, x: nat, k: Key) returns (t: Trick)
    requires Sound(c) && x < |c.block| == |c.seat| && k in c.home && Writes(c, x, k) && HasSlot(c, x, k)
    requires !SamePlace(c, Stands(c, x, k), k)
    ensures Usable(c, x + 1, t) && Fools(c, x + 1, k, t)
  {
    hide DeclaredWrites; hide DeclaredReads; hide SlotKey; hide Slotted;
    var b := Stands(c, x, k);
    SlotKeyIs(c, DeclaredReads(c.block[x]), c.seat[x], Qualify(c.seat[x], k));
    assert Reads(c, x, b) && Declares(c, x, b);
    assert b in c.home;
    hide Sound; hide HasSlot; hide Stands;
    t := Feed(c, x, b);
    Later(c, x, t);
    forall d | PlaysTo(c, d, x + 1, t) && k in d.home
      ensures (Val(d, x + 1, k) == Blank) != (StatelessRows.Serial(d, x + 1, k) == Blank)
    {
      SlotFools(c, d, x, k, b, t);
    }
  }

  lemma SlotFools(c: Job, d: Job, x: nat, k: Key, b: Key, t: Trick)
    requires x < |c.block| == |c.seat| && k in c.home && b in c.home && Writes(c, x, k) && HasSlot(c, x, k)
    requires b == Stands(c, x, k) && !SamePlace(c, b, k)
    requires Usable(c, x, t) && Usable(c, x + 1, t) && Feeds(c, x, b, t) && PlaysTo(c, d, x + 1, t) && k in d.home
    ensures Val(d, x + 1, k) == Mark(b) && StatelessRows.Serial(d, x + 1, k) == Blank
  {
    hide PlaysTo; hide Got; hide ValueAt; hide DeclaredWrites; hide DeclaredReads; hide Picture; hide HasSlot;
    hide Stands; hide Mark; hide Qualify;
    assert Wrote(RoleOf(t.roles, x)) == map[] by { assert x !in t.roles; }
    hide Usable; hide RoleOf;
    InRange(c, d, x + 1, t, x);
    ShapeDeclares(c, d);
    ShapePlace(c, d, k, b);
    ShapeSlots(c, d, x, k);
    hide SameShape;
    Shorter(c, d, x, t);
    IdleStep(c, d, x + 1, t, x, k);
    PictureShows(d, x, k);
    hide Lost;
    assert Val(d, x, b) == Mark(b) && ValueAt(d, Dropping, x, Where(d, k)) == Blank;
    assert Pub(d, x, k) == Mark(b);
  }

  /** An idle transaction without a row name of its own passes the version on. */
  lemma StillFooled(c: Job, m: nat, k: Key, t: Trick)
    requires 0 < m <= |c.block| == |c.seat| && k in c.home && Usable(c, m - 1, t) && Usable(c, m, t)
    requires Fools(c, m - 1, k, t)
    requires k in DeclaredWrites(c.block[m - 1]) ==> !HasSlot(c, m - 1, k)
    ensures Fools(c, m, k, t)
  {
    hide Got; hide ValueAt; hide DeclaredWrites; hide Lost; hide Where; hide Picture; hide HasSlot;
    var x := m - 1;
    assert Wrote(RoleOf(t.roles, x)) == map[] by { assert x !in t.roles; }
    hide Usable; hide RoleOf;
    forall d | PlaysTo(c, d, m, t) && k in d.home
      ensures (Val(d, m, k) == Blank) != (StatelessRows.Serial(d, m, k) == Blank)
    {
      InRange(c, d, m, t, x);
      ShapeDeclares(c, d);
      ShapeSlots(c, d, x, k);
      Shorter(c, d, x, t);
      IdleStep(c, d, m, t, x, k);
      PictureShows(d, x, k);
      assert x + 1 == m;
    }
  }

  // ---- Complete runs ----

  lemma ShapeWellFormed(c: Setup, d: Job)
    requires WellFormed(c) && SameShape(c.job, d)
    ensures WellFormed(c.(job := d))
  {
    ShapeSound(c.job, d);
    hide Sound;
    forall i | 0 <= i < |d.block|
      ensures Canonical(d.block[i])
    {
      assert Canonical(c.job.block[i]);
    }
  }

  lemma NeverFails(c: Setup, st: State, st': State)
    requires Harmless(c.job) && Next(c, st, st') && st.failed == {}
    ensures st'.failed == {}
  {
    hide FetchStep; hide RunStep; hide WriteStep; hide CompleteStep;
    if i: nat, k :| FetchStep(c, st, st', i, k) {
      hide Harmless; hide Available; hide Predecessor;
      FetchChanges(c, st, st', i, k);
    } else if i: nat :| RunStep(c, st, st', i) {
      RunChanges(c, st, st', i);
    } else if i: nat, k, v :| WriteStep(c, st, st', i, k, v) {
      hide Harmless; hide Sends; hide IsNoop; hide Written;
      WriteChanges(c, st, st', i, k, v);
    } else {
      hide Harmless; hide AllWritten;
      var s, i: nat :| CompleteStep(c, st, st', s, i);
      CompleteChanges(c, st, st', s, i);
    }
  }

  lemma AppendRuns(c: Setup, run0: seq<State>, st': State)
    requires IsRun(c, run0) && Next(c, Last(run0), st')
    ensures IsRun(c, run0 + [st']) && Last(run0 + [st']) == st'
  {
    hide Next; hide Init;
    var run := run0 + [st'];
    forall p | 0 <= p < |run| - 1
      ensures Next(c, run[p], run[p + 1])
    {
      if p < |run0| - 1 {
        assert Next(c, run0[p], run0[p + 1]);
      }
    }
  }

  /** A block whose transactions never leave their declarations has a complete run. */
  lemma {:induction false} Complete(c: Setup, run0: seq<State>) returns (run: seq<State>)
    requires WellFormed(c) && Harmless(c.job) && IsRun(c, run0) && Last(run0).failed == {}
    ensures IsRun(c, run) && Finished(c, Last(run))
    decreases Budget(c) + 1 - |run0|
  {
    hide WellFormed; hide Harmless; hide Next; hide Ordered; hide Finished; hide Budget; hide Init;
    RunOrdered(c, run0);
    if Finished(c, Last(run0)) {
      run := run0;
    } else {
      NotStuck(c, Last(run0));
      var st' :| Next(c, Last(run0), st');
      NeverFails(c, Last(run0), st');
      AppendRuns(c, run0, st');
      RunBounded(c, run0 + [st']);
      hide IsRun; hide Last;
      run := Complete(c, run0 + [st']);
    }
  }

  lemma SomeRun(c: Setup) returns (run: seq<State>)
    requires WellFormed(c) && Harmless(c.job)
    ensures IsRun(c, run) && Finished(c, Last(run))
  {
    hide WellFormed; hide Harmless; hide Finished;
    run := Complete(c, [Init(c)]);
  }

  /** Blocks whose pairs of puts start with a plain key are unambiguous. */
  lemma CastUnambiguous(d: Job, roles: map<nat, Role>)
    requires |d.block| == |d.seat| && Cast(d, roles)
    requires forall x: nat :: RoleOf(roles, x).Puts2? ==> RoleOf(roles, x).a.Plain?
    ensures Unambiguous(d)
  {
    hide Execute; hide Picture; hide DeclaredReads; hide DeclaredWrites; hide Play;
    forall i: nat, k, v, w | i < |d.block| == |d.seat| && WithinDeclaration(d.block[i], Got(d, i)) && Writes(d, i, k)
      && CountsAs(Got(d, i).writes, k, v) && CountsAs(Got(d, i).writes, k, w)
      ensures v == w
    {
      var r := RoleOf(roles, i);
      assert d.block[i].program == Play(r);
      Plays(d.block[i], r, Picture(d, i), Some(d.seat[i]));
      OneCandidate(r, k, v, w);
    }
  }

  lemma OneCandidate(r: Role, k: Key, v: Value, w: Value)
    requires (r.Puts2? ==> r.a.Plain?) && CountsAs(Wrote(r), k, v) && CountsAs(Wrote(r), k, w)
    ensures v == w
  {
    var writes := Wrote(r);
    if k !in writes {
      var y :| Qualified(y, k.name) in writes && v == writes[Qualified(y, k.name)];
      var z :| Qualified(z, k.name) in writes && w == writes[Qualified(z, k.name)];
      assert r.Puts1? || r.Puts2?;
    }
  }

  /** A complete run of a block of the same shape that does not end serially. */
  ghost predicate Breaks(c: Setup, d: Setup, run: seq<State>) {
    d == c.(job := d.job) && SameShape(c.job, d.job) && WellFormed(d) && IsRun(d, run) && Finished(d, Last(run))
      && !EndsSerial(d, Last(run))
  }

  // ---- A read that shows the wrong row ----

  /** A probe added to a trick. */
  lemma Probing(c: Job, i: nat, k: Key, t: Trick) returns (d: Job, roles: map<nat, Role>)
    requires |c.block| == |c.seat| && Reads(c, i, k) && Usable(c, i, t)
    ensures SameShape(c, d) && Cast(d, roles) && PlaysTo(c, d, i, t) && RoleOf(roles, i) == Probes(k)
    ensures forall x: nat :: RoleOf(roles, x).Puts2? ==> RoleOf(roles, x).a.Plain?
  {
    hide Cast; hide DeclaredReads; hide DeclaredWrites;
    roles := t.roles[i := Probes(k)];
    forall x: nat | x < |c.block|
      ensures Allowed(c, x, RoleOf(roles, x))
    {
      assert x != i ==> RoleOf(roles, x) == RoleOf(t.roles, x);
    }
    forall x: nat
      ensures RoleOf(roles, x).Puts2? ==> RoleOf(roles, x).a.Plain?
    {
      assert x != i ==> RoleOf(roles, x) == RoleOf(t.roles, x);
    }
    d := Staged(c, roles, t.bases);
    forall x: nat | x < i
      ensures d.block[x].program == Play(RoleOf(t.roles, x))
    {
      CastPlays(d, roles, x);
      assert RoleOf(roles, x) == RoleOf(t.roles, x);
    }
  }

  lemma CastPlays(d: Job, roles: map<nat, Role>, x: nat)
    requires Cast(d, roles) && x < |d.block|
    ensures d.block[x].program == Play(RoleOf(roles, x))
  {
  }

  /** What a probe finds in the stateless run. */
  lemma ProbesImage(d: Job, roles: map<nat, Role>, i: nat, k: Key)
    requires Cast(d, roles) && i < |d.block| == |d.seat| && RoleOf(roles, i) == Probes(k) && Reads(d, i, k)
    ensures Got(d, i).success <==> Val(d, i, Stands(d, i, k)) == Blank
  {
    hide Play; hide Execute; hide Val; hide Picture; hide Stands; hide HasSlot; hide DeclaredReads;
    ReadHasSlot(d, i, k);
    PictureShows(d, i, k);
    Plays(d.block[i], Probes(k), Picture(d, i), Some(d.seat[i]));
  }

  lemma WrongReadBreaks(c: Setup, i: nat, k: Key, t: Trick) returns (d: Setup, run: seq<State>)
    requires WellFormed(c) && Reads(c.job, i, k) && k in c.job.home && Usable(c.job, i, t)
    requires |c.job.block| == |c.job.seat|
    requires forall j :: PlaysTo(c.job, j, i, t) && k in j.home ==>
      ((Val(j, i, Stands(c.job, i, k)) == Blank) != (ValueAt(j, Dropping, i, Where(c.job, k)) == Blank))
    ensures Breaks(c, d, run)
  {
    hide WellFormed; hide Usable; hide Cast; hide ValueAt; hide Val; hide Got; hide Finished; hide EndsSerial;
    hide Stands; hide DeclaredReads; hide Next;
    var j, roles := Probing(c.job, i, k, t);
    d := c.(job := j);
    ShapeWellFormed(c, j);
    CastIsHarmless(j, roles);
    CastUnambiguous(j, roles);
    ShapeDeclares(c.job, j);
    ShapePlace(c.job, j, k, k);
    ShapeSlots(c.job, j, i, k);
    hide Harmless; hide Unambiguous; hide Where; hide Reads;
    run := SomeRun(d);
    ProbesImage(j, roles, i, k);
    ProbesSerial(j, Dropping, roles, i, k);
    WrongOutcome(d, run, i);
  }

  lemma WrongOutcome(d: Setup, run: seq<State>, i: nat)
    requires WellFormed(d) && Unambiguous(d.job) && IsRun(d, run) && Finished(d, Last(run))
    requires i < |d.job.block| == |d.job.seat|
    requires Got(d.job, i).success != OutcomeAt(d.job, Dropping, i).success
    ensures !EndsSerial(d, Last(run))
  {
    hide WellFormed; hide Unambiguous; hide Got; hide OutcomeAt; hide ValueAt; hide Next; hide Ordered; hide Finished;
    hide AllDone; hide Val; hide Pub; hide RowOf; hide Peek; hide Delivered; hide Applied;
    VersionChain(d, run);
    RunOrdered(d, run);
    FinishedIsDone(d, Last(run));
    DoneRan(d, Last(run));
  }

  // ---- A plain key that borrows the value of another row ----

  lemma {:induction false} Listed(rows: set<WriteRow>) returns (list: seq<WriteRow>)
    ensures forall x :: x in list <==> x in rows
  {
    if rows == {} {
      list := [];
    } else {
      var x :| x in rows;
      var rest := Listed(rows - {x});
      list := rest + [x];
    }
  }

  /** Rows can always be applied. */
  lemma SomeApplied(c: Job, s: Shard, rows: seq<WriteRow>) returns (after: Rows)
    ensures Applied(c, s, map[], rows, after)
  {
    hide Before; hide Qualify;
    var names := set x | x in rows && !x.noop :: Qualify(s, x.key);
    after := map r | r in names :: Decided(c, s, rows, r);
    forall r, w | Decides(c, s, rows, r, w)
      ensures r in after && after[r] == w.value
    {
      DecidedOnce(c, s, rows, r, w);
    }
  }

  ghost function Decided(c: Job, s: Shard, rows: seq<WriteRow>, r: Key): Value {
    if w :| Decides(c, s, rows, r, w) then w.value else Blank
  }

  lemma OneDecides(c: Job, s: Shard, rows: seq<WriteRow>, r: Key, u: WriteRow, w: WriteRow)
    requires Decides(c, s, rows, r, u) && Decides(c, s, rows, r, w)
    ensures u == w
  {
    hide RankOf; hide Qualify;
    assert u != w ==> Before(c, u, w) && Before(c, w, u);
  }

  lemma DecidedOnce(c: Job, s: Shard, rows: seq<WriteRow>, r: Key, w: WriteRow)
    requires Decides(c, s, rows, r, w)
    ensures Decided(c, s, rows, r) == w.value
  {
    forall u | Decides(c, s, rows, r, u)
      ensures u == w
    {
      OneDecides(c, s, rows, r, u, w);
    }
    hide Decides;
  }

  lemma BorrowBreaks(c: Setup, i: nat, n: Token, z: Shard) returns (d: Setup, run: seq<State>)
    requires WellFormed(c) && Writes(c.job, i, Plain(n)) && Writes(c.job, i, Qualified(z, n))
    requires !SamePlace(c.job, Plain(n), Qualified(z, n))
    requires Plain(n) in c.job.home && Qualified(z, n) in c.job.home
    ensures Breaks(c, d, run)
  {
    hide WellFormed; hide Cast; hide ValueAt; hide Val; hide Got; hide Finished; hide EndsSerial; hide DeclaredReads;
    hide DeclaredWrites; hide Next; hide Stored;
    var k, q := Plain(n), Qualified(z, n);
    var roles: map<nat, Role> := map[i := Puts1(q, Mark(q))];
    var j := Staged(c.job, roles, map[]);
    d := c.(job := j);
    ShapeWellFormed(c, j);
    SeatsFit(d);
    CastIsHarmless(j, roles);
    CastUnambiguous(j, roles);
    ShapeDeclares(c.job, j);
    ShapePlace(c.job, j, k, q);
    hide Harmless; hide Unambiguous; hide SameShape;
    run := SomeRun(d);
    OneStores(j, Dropping, roles, i, |j.block|, Where(j, k));
    StoredNone(j, map[q := Mark(q)], Where(j, k), Blank);
    BorrowedRow(d, run, roles, i, n, z);
  }

  /** Only the borrowing transaction sends anything for the row. */
  lemma OnlyBorrow(d: Setup, roles: map<nat, Role>, i: nat, n: Token, z: Shard, x: nat, a: Key)
    requires |d.job.block| == |d.job.seat| && x < |d.job.block| && Cast(d.job, roles)
    requires roles == map[i := Puts1(Qualified(z, n), Mark(Qualified(z, n)))]
    ensures a in SentRows(d.job, x) ==> x == i && (a == Plain(n) || a == Qualified(z, n))
    ensures x == i && Writes(d.job, i, Plain(n))
      ==> Plain(n) in SentRows(d.job, i) && SentRows(d.job, i)[Plain(n)] == Mark(Qualified(z, n))
  {
    hide Val; hide Picture; hide DeclaredReads; hide DeclaredWrites; hide Play; hide Execute;
    var q := Qualified(z, n);
    var r := RoleOf(roles, x);
    Plays(d.job.block[x], r, Picture(d.job, x), Some(d.job.seat[x]));
    assert Got(d.job, x).writes == Wrote(r) && Got(d.job, x).success;
    CastIsHarmless(d.job, roles);
    assert WithinDeclaration(d.job.block[x], Got(d.job, x));
    hide Got; hide Harmless; hide Cast;
    if x == i {
      assert CountsAs(Wrote(r), Plain(n), Mark(q));
    }
  }

  lemma BorrowedRow(d: Setup, run: seq<State>, roles: map<nat, Role>, i: nat, n: Token, z: Shard)
    requires WellFormed(d) && Unambiguous(d.job) && |d.job.block| == |d.job.seat| && IsRun(d, run)
    requires Finished(d, Last(run))
    requires i < |d.job.block| && Cast(d.job, roles) && roles == map[i := Puts1(Qualified(z, n), Mark(Qualified(z, n)))]
    requires Writes(d.job, i, Plain(n))
    requires Plain(n) in d.job.home && !SamePlace(d.job, Plain(n), Qualified(z, n)) && Qualified(z, n) in d.job.home
    requires ValueAt(d.job, Dropping, |d.job.block|, Where(d.job, Plain(n))) == Blank
    ensures !EndsSerial(d, Last(run))
  {
    hide WellFormed; hide Unambiguous; hide Cast; hide ValueAt; hide Val; hide Pub; hide Got; hide OutcomeAt;
    hide Next; hide Ordered; hide Finished; hide AllDone; hide Agrees; hide SentRows; hide DeclaredReads;
    hide DeclaredWrites; hide Delivered; hide Applied; hide Decides; hide Mark;
    var k, q := Plain(n), Qualified(z, n);
    var st, p := Last(run), Where(d.job, k);
    VersionChain(d, run);
    RunOrdered(d, run);
    FinishedIsDone(d, st);
    forall x: nat, a | x < |d.job.block| && a in SentRows(d.job, x)
      ensures x == i && (a == k || a == q)
    {
      OnlyBorrow(d, roles, i, n, z, x, a);
    }
    OnlyBorrow(d, roles, i, n, z, i, k);
    assert ComesLast(d.job, SentRows(d.job, i), p, k);
    var rows := SomeDelivery(d, st, p.0);
    LastDecides(d, st, p.0, rows, p, i, k);
    var after := SomeApplied(d.job, p.0, rows);
    AppliedDecides(d.job, p.0, rows, after, p.1, WriteRow(k, SentRows(d.job, i)[k], Ver(d, i), false));
    NotBlank(q);
    NotSerialRow(d, st, p.0, rows, after, p.1);
  }

  lemma NotBlank(k: Key)
    ensures Mark(k) != Blank
  {
  }

  lemma AppliedDecides(c: Job, s: Shard, rows: seq<WriteRow>, after: Rows, r: Key, w: WriteRow)
    requires Applied(c, s, map[], rows, after) && Decides(c, s, rows, r, w)
    ensures r in after && after[r] == w.value
  {
    hide Decides;
  }

  lemma NotSerialRow(d: Setup, st: State, s: Shard, rows: seq<WriteRow>, after: Rows, r: Key)
    requires Delivered(d, st, s, rows) && Applied(d.job, s, map[], rows, after) && r in after
    requires after[r] != ValueAt(d.job, Dropping, |d.job.block|, (s, r))
    ensures !EndsSerial(d, st)
  {
    hide Delivered; hide Applied; hide ValueAt; hide OutcomeAt;
  }

  lemma SomeDelivery(d: Setup, st: State, s: Shard) returns (rows: seq<WriteRow>)
    ensures Delivered(d, st, s, rows)
  {
    rows := Listed(set x | x in st.rows && At(d.job, x.key, s));
  }

  // ---- An emptied row ----

  /** For any access lists with a declared write there is a program that empties a row, and the
      durable state does not notice. */
  lemma EmptyingIsLost(c: Setup, i: nat, k: Key) returns (d: Setup, run: seq<State>, rows: seq<WriteRow>, after: Rows)
    requires WellFormed(c) && |c.job.block| == |c.job.seat| && Aligned(c.job) && Writes(c.job, i, k) && k in c.job.home
    ensures d == c.(job := d.job) && SameShape(c.job, d.job) && WellFormed(d) && IsRun(d, run) && Finished(d, Last(run))
    ensures var p := Where(c.job, k);
            && Delivered(d, Last(run), p.0, rows) && Applied(d.job, p.0, map[], rows, after)
            && ValueAt(d.job, Dropping, |d.job.block|, p) == Blank
              && DurableAfter(RowsAt(d.job.bases, p.0), after, p.1) == Mark(k)
  {
    hide WellFormed; hide Cast; hide ValueAt; hide Finished; hide DeclaredReads; hide DeclaredWrites; hide Next;
    hide Stored; hide Aligned; hide Delivered; hide Applied;
    var p := Where(c.job, k);
    var roles: map<nat, Role> := map[i := Puts1(k, Blank)];
    var j := Staged(c.job, roles, map[p.0 := map[p.1 := Mark(k)]]);
    d := c.(job := j);
    ShapeWellFormed(c, j);
    ShapeAligned(c.job, j);
    CastIsHarmless(j, roles);
    ShapeDeclares(c.job, j);
    ShapePlace(c.job, j, k, k);
    hide Harmless; hide SameShape;
    run := SomeRun(d);
    rows := SomeDelivery(d, Last(run), p.0);
    after := SomeApplied(j, p.0, rows);
    OneStores(j, Dropping, roles, i, |j.block|, p);
    StoredLast(j, map[k := Blank], p, k, Peek(j.bases, p));
    StatelessSerial(d, run);
    NotBlank(k);
    hide EndsSerial;
    EmptiedRow(d, Last(run), p, rows, after);
  }

  lemma EmptiedRow(d: Setup, st: State, p: Place, rows: seq<WriteRow>, after: Rows)
    requires EndsSerial(d, st) && Delivered(d, st, p.0, rows) && Applied(d.job, p.0, map[], rows, after)
    requires ValueAt(d.job, Dropping, |d.job.block|, p) == Blank
    ensures DurableAfter(RowsAt(d.job.bases, p.0), after, p.1) == Peek(d.job.bases, p)
  {
    hide Delivered; hide Applied; hide ValueAt; hide OutcomeAt;
    assert (if p.1 in after then after[p.1] else Peek(d.job.bases, (p.0, p.1))) == ValueAt(d.job, Dropping,
      |d.job.block|, (p.0, p.1));
  }

  // ---- The exact condition ----

  lemma DeclaredHome(c: Setup, i: nat, k: Key)
    requires WellFormed(c) && (Reads(c.job, i, k) || Writes(c.job, i, k))
    ensures k in c.job.home
  {
    hide DeclaredReads; hide DeclaredWrites; hide Canonical; hide RankOf; hide Plannable;
    assert Declares(c.job, i, k);
  }

  /** Whenever the rows of a block are not aligned, some block with the very same access lists,
      homes and seats has a complete run that does not end serially. */
  lemma MisalignedBreaks(c: Setup) returns (d: Setup, run: seq<State>)
    requires WellFormed(c) && |c.job.block| == |c.job.seat| && !Aligned(c.job)
    ensures Breaks(c, d, run)
  {
    assert Sound(c.job);
    hide WellFormed; hide Sound; hide Breaks; hide DeclaredReads; hide DeclaredWrites; hide SamePlace; hide Fresh;
    hide Stands; hide ValueAt; hide Val; hide Usable; hide Where;
    if !BorrowsApart(c.job) {
      var i: nat, n, z :| Writes(c.job, i, Plain(n)) && Writes(c.job, i, Qualified(z, n))
        && !SamePlace(c.job, Plain(n), Qualified(z, n));
      DeclaredHome(c, i, Plain(n));
      DeclaredHome(c, i, Qualified(z, n));
      d, run := BorrowBreaks(c, i, n, z);
    } else {
      hide BorrowsApart;
      var i: nat, k :| Reads(c.job, i, k)
        && !(SamePlace(c.job, Stands(c.job, i, k), k) && Fresh(c.job, i, Stands(c.job, i, k)));
      var b := Stands(c.job, i, k);
      ReadHasSlot(c.job, i, k);
      DeclaredHome(c, i, k);
      DeclaredHome(c, i, b);
      var t;
      if !SamePlace(c.job, b, k) {
        t := Feed(c.job, i, b);
        FedWrong(c.job, i, k, b, t);
      } else {
        t := Fool(c.job, i, b);
        FooledWrong(c.job, i, k, b, t);
      }
      d, run := WrongReadBreaks(c, i, k, t);
    }
  }

  lemma FedWrong(c: Job, i: nat, k: Key, b: Key, t: Trick)
    requires k in c.home && b in c.home && !SamePlace(c, b, k) && Feeds(c, i, b, t)
    ensures forall j :: PlaysTo(c, j, i, t) && k in j.home ==>
      ((Val(j, i, b) == Blank) != (ValueAt(j, Dropping, i, Where(c, k)) == Blank))
  {
    hide ValueAt; hide Val; hide Mark; hide PlaysTo;
    NotBlank(b);
    forall j | PlaysTo(c, j, i, t)
      ensures PlaysTo(c, j, i, t) && i <= |j.block| == |j.seat| && Val(j, i, b) == Mark(b)
      ensures ValueAt(j, Dropping, i, Where(c, k)) == Blank
    {
      Positions(c, j, i, t);
      assert Where(c, k) != Where(c, b);
    }
  }

  lemma Positions(c: Job, j: Job, i: nat, t: Trick)
    requires PlaysTo(c, j, i, t)
    ensures i <= |j.block| == |j.seat|
  {
  }

  lemma FooledWrong(c: Job, i: nat, k: Key, b: Key, t: Trick)
    requires k in c.home && b in c.home && SamePlace(c, b, k) && Fools(c, i, b, t)
    ensures forall j :: PlaysTo(c, j, i, t) && k in j.home ==>
      ((Val(j, i, b) == Blank) != (ValueAt(j, Dropping, i, Where(c, k)) == Blank))
  {
    hide ValueAt; hide Val;
    forall j | PlaysTo(c, j, i, t) && k in j.home
      ensures (Val(j, i, b) == Blank) != (ValueAt(j, Dropping, i, Where(c, k)) == Blank)
    {
      ShapePlace(c, j, b, k);
    }
  }

  lemma {:induction false} ShapeFresh(c: Job, d: Job, m: nat, k: Key)
    requires SameShape(c, d) && m <= |c.block| == |c.seat|
    ensures Fresh(d, m, k) <==> Fresh(c, m, k)
    decreases m, 0
  {
    ShapeDeclares(c, d);
    hide SameShape; hide DeclaredReads; hide DeclaredWrites; hide Good; hide WritesOther; hide Declares; hide Reads;
    hide Writes; hide Lives;
    if m > 0 {
      ShapeOther(c, d, m - 1, k);
      ShapeGood(c, d, m - 1, k);
      ShapeFresh(c, d, m - 1, k);
    }
  }

  lemma ShapeOther(c: Job, d: Job, i: nat, k: Key)
    requires SameShape(c, d)
    ensures WritesOther(d, i, k) <==> WritesOther(c, i, k)
    ensures OthersFirst(d, i, k) <==> OthersFirst(c, i, k)
  {
    ShapeDeclares(c, d);
    hide Writes; hide DeclaredReads; hide DeclaredWrites; hide Declares; hide Reads; hide Lives;
    forall a
      ensures SamePlace(d, a, k) <==> SamePlace(c, a, k)
      ensures RankOf(d, a) == RankOf(c, a)
    {
      ShapePlace(c, d, a, k);
    }
    hide SamePlace; hide RankOf; hide SameShape;
  }

  lemma {:induction false} ShapeGood(c: Job, d: Job, i: nat, k: Key)
    requires SameShape(c, d) && i < |c.block| == |c.seat|
    ensures Good(d, i, k) <==> Good(c, i, k)
    decreases i, 1
  {
    hide HasSlot; hide Stands; hide WritesOther; hide SamePlace; hide Fresh; hide Writes; hide RankOf;
    ShapeOther(c, d, i, k);
    ShapeSlots(c, d, i, k);
    ShapePlace(c, d, Stands(c, i, k), k);
    ShapeFresh(c, d, i, k);
    hide SameShape;
    GoodIs(c, i, k);
    GoodIs(d, i, k);
  }

  lemma GoodIs(c: Job, i: nat, k: Key)
    requires i < |c.block| == |c.seat|
    ensures Good(c, i, k) <==> (WritesOther(c, i, k) ==> k.Plain? && OthersFirst(c, i, k)) && (if HasSlot(c, i, k)
      then SamePlace(c, Stands(c, i, k), k) else Fresh(c, i, k))
  {
    hide HasSlot; hide Stands; hide WritesOther; hide SamePlace; hide Fresh;
  }

  lemma ShapeAligned(c: Job, d: Job)
    requires SameShape(c, d) && |c.block| == |c.seat| && Aligned(c)
    ensures |d.block| == |d.seat| && Aligned(d)
  {
    ShapeDeclares(c, d);
    assert |d.block| == |d.seat|;
    hide SameShape; hide DeclaredReads; hide DeclaredWrites; hide Stands; hide Fresh; hide SamePlace; hide Reads;
    hide Writes; hide Declares; hide Lives;
    forall i: nat, k | Reads(d, i, k)
      ensures SamePlace(d, Stands(d, i, k), k) && Fresh(d, i, Stands(d, i, k))
    {
      assert Reads(c, i, k);
      ReadsInBlock(c, i, k);
      ShapeSlots(c, d, i, k);
      ShapePlace(c, d, Stands(c, i, k), k);
      ShapeFresh(c, d, i, Stands(c, i, k));
    }
    forall i: nat, n, z | Writes(d, i, Plain(n)) && Writes(d, i, Qualified(z, n))
      ensures SamePlace(d, Plain(n), Qualified(z, n))
    {
      ShapePlace(c, d, Plain(n), Qualified(z, n));
    }
  }

  lemma ReadsInBlock(c: Job, i: nat, k: Key)
    requires Reads(c, i, k)
    ensures i < |c.block|
  {
  }

  /** The exact condition: access lists, homes and seats guarantee serial results, failed writes
      dropped, for all programs, starting rows and interleavings exactly if the rows are aligned. */
  lemma SerialExactly(c: Setup)
    requires WellFormed(c) && |c.job.block| == |c.job.seat|
    ensures Aligned(c.job) <==>
            (forall d: Setup, run: seq<State> ::
              && d == c.(job := d.job) && SameShape(c.job, d.job) && WellFormed(d)
              && IsRun(d, run) && Finished(d, Last(run))
              ==> EndsSerial(d, Last(run)))
  {
    hide WellFormed; hide Aligned; hide SameShape; hide EndsSerial; hide Finished; hide Next;
    if Aligned(c.job) {
      forall d: Setup, run: seq<State> | d == c.(job := d.job) && SameShape(c.job, d.job) && WellFormed(d)
        && IsRun(d, run) && Finished(d, Last(run))
        ensures EndsSerial(d, Last(run))
      {
        ShapeAligned(c.job, d.job);
        StatelessSerial(d, run);
      }
    } else {
      var d, run := MisalignedBreaks(c);
    }
  }
}
