/** Why stateful Calvin needs the rows of a block to be orderly: for any access lists that are
    not, there are programs and a complete run of them that is not serial. */
module CalvinAliases {
  import opened Basics
  import opened Transactions
  import opened SerialRows
  import opened Witnesses
  import opened CalvinStateful

  // ---- The order of events depends on the shape only ----

  lemma ShapeRuns(c: Job, d: Job, s: Shard, i: nat)
    requires SameShape(c, d)
    ensures Runs(d, s, i) <==> Runs(c, s, i)
    ensures Participates(d, s, i) <==> Participates(c, s, i)
  {
    ShapeDeclares(c, d);
    hide DeclaredReads; hide DeclaredWrites; hide Declares; hide Writes; hide At;
    assert |d.block| == |c.block| && d.seat == c.seat;
    hide SameShape;
    if i < |c.block| {
      assert DeclaredWrites(d.block[i]) == DeclaredWrites(c.block[i]);
    }
  }

  lemma ShapeClash(c: Job, d: Job, s: Shard, j: nat, i: nat)
    requires SameShape(c, d)
    ensures Clash(d, s, j, i) <==> Clash(c, s, j, i)
  {
    ShapeDeclares(c, d);
    hide Declares; hide Writes; hide At; hide SameShape; hide DeclaredReads; hide DeclaredWrites;
  }

  lemma ShapeNeeds(c: Job, d: Job, e: Event, m: Event)
    requires SameShape(c, d)
    ensures Needs(d, e, m) <==> Needs(c, e, m)
  {
    hide Clash; hide Runs;
    ShapeClash(c, d, e.shard, m.index, e.index);
    ShapeRuns(c, d, e.shard, e.index);
    ShapeDeclares(c, d);
    hide Reads; hide At; hide SameShape; hide Declares; hide Writes; hide DeclaredReads; hide DeclaredWrites;
    hide Lives; hide Participates;
  }

  lemma {:induction false} ShapePrecedes(c: Job, d: Job, m: Event, e: Event)
    requires SameShape(c, d)
    ensures Precedes(d, m, e) <==> Precedes(c, m, e)
    decreases e.index, Stage(e)
  {
    hide SameShape; hide Needs;
    forall n
      ensures Needs(d, e, n) <==> Needs(c, e, n)
    {
      ShapeNeeds(c, d, e, n);
    }
    forall n | Needs(c, e, n)
      ensures Precedes(d, m, n) <==> Precedes(c, m, n)
    {
      NeedsDrop(c, e, n);
      ShapePrecedes(c, d, m, n);
    }
  }

  lemma ShapeWellFormed(c: Job, d: Job)
    requires SameShape(c, d) && WellFormed(c)
    ensures WellFormed(d)
  {
    ShapeSound(c, d);
    ShapeDeclares(c, d);
    hide Sound; hide DeclaredReads; hide DeclaredWrites; hide Reads; hide At;
    assert |d.block| == |c.block| && d.seat == c.seat;
    hide SameShape;
    forall i: nat | i < |d.block| && DeclaredWrites(d.block[i]) == {}
      ensures exists k :: Reads(d, i, k) && At(d, k, d.seat[i])
    {
      var k :| Reads(c, i, k) && At(c, k, c.seat[i]);
      assert Reads(d, i, k) && At(d, k, d.seat[i]);
    }
  }

  // ---- Runs made to measure ----

  ghost function AllEvents(c: Job): set<Event> {
    (set p | p in Parts(c) :: ReadAt(p.0, p.1)) + (set p | p in Parts(c) && Runs(c, p.0, p.1) ::
      RunAt(p.0, p.1)) + (set p | p in Parts(c) :: FreeAt(p.0, p.1))
  }

  /** The event concerns a shard that takes part and, for a run, that executes. */
  ghost predicate Valid(c: Job, e: Event) {
    Participates(c, e.shard, e.index) && (e.RunAt? ==> Runs(c, e.shard, e.index))
  }

  lemma PartsTakePart(c: Job, s: Shard, i: nat)
    ensures (s, i) in Parts(c) <==> Participates(c, s, i)
  {
    hide DeclaredReads; hide DeclaredWrites;
    if Participates(c, s, i) {
      var k :| Declares(c, i, k) && At(c, k, s);
      assert i < |c.block| && k in DeclaredKeys(c.block[i]) && k in c.home && (s, i) == (c.home[k], i);
    }
    if (s, i) in Parts(c) {
      var k :| k in DeclaredKeys(c.block[i]) && k in c.home && (s, i) == (c.home[k], i);
      assert Declares(c, i, k) && At(c, k, s);
    }
  }

  lemma EventsAreValid(c: Job, e: Event)
    ensures e in AllEvents(c) <==> Valid(c, e)
  {
    hide Parts; hide Participates; hide Runs;
    PartsTakePart(c, e.shard, e.index);
  }

  lemma NeedsValid(c: Job, e: Event, d: Event)
    requires Valid(c, e) && Needs(c, e, d)
    ensures Valid(c, d)
  {
    hide Runs; hide Declares; hide Writes; hide At; hide Reads;
    match e
    case ReadAt(s, i) =>
      var k :| Declares(c, d.index, k) && At(c, k, s);
    case RunAt(s, i) =>
      ReaderTakesPart(c, i, d.shard);
    case FreeAt(s, i) =>
  }

  lemma {:induction false} PrecedesValid(c: Job, d: Event, e: Event)
    requires Valid(c, e) && Precedes(c, d, e)
    ensures Valid(c, d)
    decreases e.index, Stage(e)
  {
    hide Needs; hide Valid;
    if Needs(c, e, d) {
      NeedsValid(c, e, d);
    } else {
      var m :| Needs(c, e, m) && Precedes(c, d, m);
      NeedsValid(c, e, m);
      NeedsDrop(c, e, m);
      PrecedesValid(c, d, m);
    }
  }

  /** With an event, everything it needs is in the set. */
  ghost predicate Closed(c: Job, events: set<Event>) {
    forall e, d :: e in events && Needs(c, e, d) ==> d in events
  }

  ghost predicate Earlier(d: Event, e: Event) {
    d.index < e.index || (d.index == e.index && Stage(d) < Stage(e))
  }

  lemma {:induction false} SomeLatest(events: set<Event>) returns (e: Event)
    requires events != {}
    ensures e in events && forall d :: d in events ==> !Earlier(e, d)
  {
    var d :| d in events;
    var rest := events - {d};
    assert forall x :: x in events ==> x == d || x in rest;
    if rest == {} {
      e := d;
    } else {
      var l := SomeLatest(rest);
      e := if Earlier(l, d) then d else l;
    }
  }

  /** A block whose transactions never leave their declarations has a run in which exactly a
      given closed set of events happens. */
  lemma {:induction false} Reach(c: Job, events: set<Event>) returns (run: seq<State>)
    requires WellFormed(c) && Harmless(c) && Closed(c, events) && forall e :: e in events ==> Valid(c, e)
    ensures IsRun(c, run) && Last(run).failed == {} && forall e :: Happened(Last(run), e) <==> e in events
    decreases |events|
  {
    hide WellFormed; hide Harmless; hide Needs; hide Valid;
    if events == {} {
      run := [Init(c)];
    } else {
      var e := SomeLatest(events);
      var rest := events - {e};
      forall x, d | x in rest && Needs(c, x, d)
        ensures d in rest
      {
        NeedsDrop(c, x, d);
        assert d in events;
        assert Earlier(d, x) && !Earlier(e, x);
      }
      var run0 := Reach(c, rest);
      hide Happened; hide Earlier; hide IsRun; hide Last;
      run := Append(c, run0, e);
      assert forall d :: d in events <==> d in rest || d == e;
    }
  }

  lemma Append(c: Job, run0: seq<State>, e: Event) returns (run: seq<State>)
    requires WellFormed(c) && Harmless(c) && IsRun(c, run0) && Last(run0).failed == {} && Valid(c, e)
    requires !Happened(Last(run0), e)
    requires forall d :: Needs(c, e, d) && d != e ==> Happened(Last(run0), d)
    ensures IsRun(c, run) && Last(run).failed == {}
    ensures forall d :: Happened(Last(run), d) <==> Happened(Last(run0), d) || d == e
  {
    hide WellFormed; hide Harmless; hide Happened; hide Next; hide Needs; hide Ordered; hide Runs;
    RunOrdered(c, run0);
    forall d | Needs(c, e, d)
      ensures Happened(Last(run0), d)
    {
      NeedsDrop(c, e, d);
    }
    InBlock(c, e);
    assert Ready(c, Last(run0), e);
    hide Ready;
    var st' := Perform(c, Last(run0), e);
    NeverFails(c, Last(run0), st');
    run := run0 + [st'];
    AppendRuns(c, run0, st');
  }

  lemma InBlock(c: Job, e: Event)
    requires Valid(c, e)
    ensures e.index < |c.block|
  {
  }

  lemma AppendRuns(c: Job, run0: seq<State>, st': State)
    requires IsRun(c, run0) && Next(c, Last(run0), st')
    ensures IsRun(c, run0 + [st']) && Last(run0 + [st']) == st'
  {
    hide Next;
    var run := run0 + [st'];
    forall p | 0 <= p < |run| - 1
      ensures Next(c, run[p], run[p + 1])
    {
      if p < |run0| - 1 {
        assert Next(c, run0[p], run0[p + 1]);
      }
    }
  }

  lemma NeverFails(c: Job, st: State, st': State)
    requires Harmless(c) && Next(c, st, st') && st.failed == {}
    ensures st'.failed == {}
  {
    hide ReadStep; hide ExecuteStep; hide FinishStep; hide Harmless;
    if s, i: nat :| ReadStep(c, st, st', s, i) {
      ReadNeverFails(c, st, st', s, i);
    } else if s, i: nat, snap :| ExecuteStep(c, st, st', s, i, snap) {
      ExecuteChanges(c, st, st', s, i, snap);
      Stays(c, i, snap, Some(s));
    } else {
      var s, i: nat, after :| FinishStep(c, st, st', s, i, after);
      FinishNeverFails(c, st, st', s, i, after);
    }
  }

  lemma Stays(c: Job, i: nat, base: Rows, at: Option<Shard>)
    requires Harmless(c) && i < |c.block|
    ensures WithinDeclaration(c.block[i], Execute(c.block[i], base, at))
  {
  }

  lemma ReadNeverFails(c: Job, st: State, st': State, s: Shard, i: nat)
    requires ReadStep(c, st, st', s, i)
    ensures st'.failed == st.failed
  {
  }

  lemma FinishNeverFails(c: Job, st: State, st': State, s: Shard, i: nat, after: Rows)
    requires FinishStep(c, st, st', s, i, after)
    ensures st'.failed == st.failed
  {
  }

  /** Every step keeps `inv`. */
  ghost predicate Kept(c: Job, inv: State -> bool) {
    forall st, st' :: Ordered(c, st) && inv(st) && Next(c, st, st') ==> inv(st')
  }

  /** What every step keeps holds at the end of every run if it holds at the start. */
  lemma {:induction false} Always(c: Job, run: seq<State>, inv: State -> bool)
    requires IsRun(c, run) && Kept(c, inv) && inv(Init(c))
    ensures inv(Last(run))
  {
    hide Next; hide Ordered; hide Init;
    if |run| > 1 {
      var n := |run| - 1;
      assert IsRun(c, run[..n]);
      Always(c, run[..n], inv);
      RunOrdered(c, run[..n]);
      assert Next(c, run[n - 1], run[n - 1 + 1]);
    }
  }

  /** A run can be completed, and the completion keeps what every step keeps. */
  lemma {:induction false} Complete(c: Job, run0: seq<State>, inv: State -> bool) returns (run: seq<State>)
    requires WellFormed(c) && Harmless(c) && IsRun(c, run0) && Last(run0).failed == {} && Kept(c, inv)
    requires inv(Last(run0))
    ensures IsRun(c, run) && Finished(c, Last(run)) && inv(Last(run))
    decreases 3 * |Parts(c)| + 1 - |run0|
  {
    hide WellFormed; hide Harmless; hide Next; hide Ordered; hide Finished; hide Parts;
    RunOrdered(c, run0);
    if Finished(c, Last(run0)) {
      run := run0;
    } else {
      NotStuck(c, Last(run0));
      var st' :| Next(c, Last(run0), st');
      NeverFails(c, Last(run0), st');
      AppendRuns(c, run0, st');
      RunBounded(c, run0 + [st']);
      hide IsRun; hide Last;
      run := Complete(c, run0 + [st'], inv);
    }
  }

  /** The strict past of an event. */
  ghost function Past(c: Job, e: Event): set<Event> {
    set d | d in AllEvents(c) && Precedes(c, d, e)
  }

  lemma PastIs(c: Job, e: Event, d: Event)
    requires Valid(c, e)
    ensures d in Past(c, e) <==> Precedes(c, d, e)
  {
    hide Precedes; hide AllEvents; hide Valid;
    EventsAreValid(c, d);
    if Precedes(c, d, e) {
      PrecedesValid(c, d, e);
    }
  }

  lemma PastClosed(c: Job, e: Event)
    requires Valid(c, e)
    ensures Closed(c, Past(c, e)) && Closed(c, Past(c, e) + {e})
    ensures forall d :: d in Past(c, e) ==> Valid(c, d)
  {
    hide Past; hide Valid; hide Needs; hide Precedes;
    forall d
      ensures d in Past(c, e) <==> Precedes(c, d, e)
    {
      PastIs(c, e, d);
    }
    forall d, m | Precedes(c, d, e) && Needs(c, d, m)
      ensures Precedes(c, m, e)
    {
      Onwards(c, m, d, e);
    }
    forall m | Needs(c, e, m)
      ensures Precedes(c, m, e)
    {
      Direct(c, m, e);
    }
    forall d | d in Past(c, e)
      ensures Valid(c, d)
    {
      PrecedesValid(c, d, e);
    }
  }

  lemma Direct(c: Job, m: Event, e: Event)
    requires Needs(c, e, m)
    ensures Precedes(c, m, e)
  {
  }

  lemma {:induction false} Onwards(c: Job, m: Event, d: Event, e: Event)
    requires Needs(c, d, m) && Precedes(c, d, e)
    ensures Precedes(c, m, e)
    decreases e.index, Stage(e)
  {
    hide Needs;
    if Needs(c, e, d) {
      assert Precedes(c, m, d);
    } else {
      var n :| Needs(c, e, n) && Precedes(c, d, n);
      NeedsDrop(c, e, n);
      Onwards(c, m, d, n);
    }
  }

  /** A run in which exactly the past of an event has happened. */
  lemma ReachPast(c: Job, e: Event) returns (run: seq<State>)
    requires WellFormed(c) && Harmless(c) && Valid(c, e)
    ensures IsRun(c, run) && Last(run).failed == {} && forall d :: Happened(Last(run), d) <==> Precedes(c, d, e)
  {
    hide WellFormed; hide Harmless; hide Valid; hide IsRun; hide Happened; hide Past; hide Precedes; hide Closed;
    hide Last;
    PastClosed(c, e);
    run := Reach(c, Past(c, e));
    forall d
      ensures d in Past(c, e) <==> Precedes(c, d, e)
    {
      PastIs(c, e, d);
    }
  }

  /** A run in which the event has happened, and before it exactly its past. */
  lemma ReachEvent(c: Job, e: Event) returns (run: seq<State>)
    requires WellFormed(c) && Harmless(c) && Valid(c, e)
    ensures IsRun(c, run) && Last(run).failed == {}
    ensures forall d :: Happened(Last(run), d) <==> Precedes(c, d, e) || d == e
  {
    hide WellFormed; hide Harmless; hide Valid; hide IsRun; hide Happened; hide Past; hide Precedes; hide Closed;
    hide Last;
    PastClosed(c, e);
    run := Reach(c, Past(c, e) + {e});
    forall d
      ensures d in Past(c, e) + {e} <==> Precedes(c, d, e) || d == e
    {
      PastIs(c, e, d);
    }
  }

  // ---- What such blocks do in every run ----

  /** A row that nobody but `w` writes: other releases leave it alone. */
  lemma OthersLeave(c: Job, roles: map<nat, Role>, st: State, st': State, s: Shard, i: nat, after: Rows, p: Place)
    requires Cast(c, roles) && FinishStep(c, st, st', s, i, after) && PlaysOut(c, roles, st)
    requires s != p.0 || forall k :: k in Wrote(RoleOf(roles, i)) ==> !Lives(c, k, p)
    ensures Peek(st'.working, p) == Peek(st.working, p)
  {
    hide Cast; hide Wrote; hide RoleOf; hide Look; hide Holds;
    if s == p.0 {
      ProducesRole(c, roles, st, s, i);
      forall k | k in Produced(c, st, s, i) && At(c, k, s)
        ensures Qualify(s, k) != p.1
      {
        assert !Lives(c, k, p);
      }
    }
  }

  /** Every executed outcome writes what the role says. */
  ghost predicate PlaysOut(c: Job, roles: map<nat, Role>, st: State) {
    forall s, i :: (s, i) in st.ran ==> st.ran[(s, i)].writes == Wrote(RoleOf(roles, i))
  }

  lemma ProducesRole(c: Job, roles: map<nat, Role>, st: State, s: Shard, i: nat)
    requires PlaysOut(c, roles, st)
    ensures forall k :: k in Produced(c, st, s, i) ==>
      k in Wrote(RoleOf(roles, i)) && Produced(c, st, s, i)[k] == Wrote(RoleOf(roles, i))[k]
  {
    hide Wrote; hide RoleOf; hide Runs;
  }

  lemma PlaysOutKept(c: Job, roles: map<nat, Role>, st: State, st': State)
    requires Cast(c, roles) && PlaysOut(c, roles, st) && Next(c, st, st')
    ensures PlaysOut(c, roles, st')
  {
    hide ReadStep; hide ExecuteStep; hide FinishStep; hide Cast; hide Wrote; hide RoleOf;
    if s, i: nat :| ReadStep(c, st, st', s, i) {
      ReadSameRan(c, st, st', s, i);
    } else if s, i: nat, snap :| ExecuteStep(c, st, st', s, i, snap) {
      ExecuteChanges(c, st, st', s, i, snap);
      RoleWrites(c, roles, i, snap, Some(s));
    } else {
      var s, i: nat, after :| FinishStep(c, st, st', s, i, after);
      FinishSameRan(c, st, st', s, i, after);
    }
  }

  lemma RoleWrites(c: Job, roles: map<nat, Role>, i: nat, base: Rows, at: Option<Shard>)
    requires Cast(c, roles) && i < |c.block|
    ensures Execute(c.block[i], base, at).writes == Wrote(RoleOf(roles, i))
  {
    Plays(c.block[i], RoleOf(roles, i), base, at);
  }

  lemma ReadSameRan(c: Job, st: State, st': State, s: Shard, i: nat)
    requires ReadStep(c, st, st', s, i)
    ensures st'.ran == st.ran && st'.done == st.done && st'.working == st.working
    ensures (s, i) !in st.readBy && i < |c.block| && st'.readBy == st.readBy[(s, i) := ReadResult(c, st, s, i)]
  {
  }

  lemma FinishSameRan(c: Job, st: State, st': State, s: Shard, i: nat, after: Rows)
    requires FinishStep(c, st, st', s, i, after)
    ensures st'.ran == st.ran && st'.readBy == st.readBy && (s, i) !in st.done
    ensures st'.done == st.done + {(s, i)} && st'.working == st.working[s := after]
  {
  }

  /** Two names of one row were read at once. */
  ghost predicate TwinReads(c: Job, st: State) {
    forall s, i, a, b :: (s, i) in st.readBy && Reads(c, i, a) && Reads(c, i, b) && At(c, a, s) && At(c, b, s)
      && Qualify(s, a) == Qualify(s, b)
      ==> Look(st.readBy[(s, i)], a) == Look(st.readBy[(s, i)], b)
  }

  lemma ReadTwins(c: Job, st: State, s: Shard, i: nat, k: Key)
    requires Reads(c, i, k) && At(c, k, s)
    ensures Look(ReadResult(c, st, s, i), k) == Peek(st.working, (s, Qualify(s, k)))
  {
  }

  /** The probing transaction succeeded exactly if its key was read as the empty string. */
  ghost predicate Probed(c: Job, st: State, i: nat, k: Key) {
    forall s :: (s, i) in st.ran ==> (st.ran[(s, i)].success <==> Merged(c, st.readBy, k, i) == Blank)
  }

  ghost predicate Sees(c: Job, roles: map<nat, Role>, st: State, i: nat, k: Key) {
    PlaysOut(c, roles, st) && TwinReads(c, st) && Probed(c, st, i, k)
  }

  lemma ReadSees(c: Job, roles: map<nat, Role>, st: State, st': State, s: Shard, x: nat, i: nat, k: Key)
    requires Ordered(c, st) && Sees(c, roles, st, i, k) && ReadStep(c, st, st', s, x) && Reads(c, i, k)
    ensures TwinReads(c, st') && Probed(c, st', i, k)
  {
    hide PlaysOut; hide Qualify; hide ReadResult; hide Peek; hide Look; hide ReadStep; hide Granted; hide Participates;
    hide Runs; hide Reads;
    ReadSameRan(c, st, st', s, x);
    forall t, j, a, b | (t, j) in st'.readBy && Reads(c, j, a) && Reads(c, j, b) && At(c, a, t) && At(c, b, t)
      && Qualify(t, a) == Qualify(t, b)
      ensures Look(st'.readBy[(t, j)], a) == Look(st'.readBy[(t, j)], b)
    {
      if (t, j) == (s, x) {
        ReadTwins(c, st, s, x, a);
        ReadTwins(c, st, s, x, b);
      }
    }
    forall t | (t, i) in st'.ran
      ensures st'.ran[(t, i)].success <==> Merged(c, st'.readBy, k, i) == Blank
    {
      assert Arrived(c, st.readBy, i);
    }
  }

  lemma TwinMerged(c: Job, st: State, s: Shard, i: nat, a: Key, k: Key)
    requires ReadsApart(c) && TwinReads(c, st) && Runs(c, s, i) && Arrived(c, st.readBy, i) && Reads(c, i, a)
    requires Reads(c, i, k) && Qualify(s, a) == Qualify(s, k)
    ensures Merged(c, st.readBy, a, i) == Merged(c, st.readBy, k, i)
  {
    hide Runs; hide Reads; hide Qualify; hide Look;
  }

  lemma SnapShows(c: Job, st: State, s: Shard, i: nat, snap: Rows, k: Key)
    requires ReadsApart(c) && TwinReads(c, st) && Runs(c, s, i) && Snapshot(c, st, s, i, snap)
    requires Arrived(c, st.readBy, i) && Reads(c, i, k)
    ensures Look(snap, Qualify(s, k)) == Merged(c, st.readBy, k, i)
  {
    hide Runs; hide Reads; hide Qualify; hide Look; hide ReadsApart; hide TwinReads; hide Arrived; hide Keeps;
    hide Merged;
    assert Shows(c, st.readBy, s, i, snap, k);
    var a :| Reads(c, i, a) && Qualify(s, a) == Qualify(s, k)
      && Look(snap, Qualify(s, k)) == Merged(c, st.readBy, a, i);
    TwinMerged(c, st, s, i, a, k);
  }

  lemma ExecuteSees(c: Job, roles: map<nat, Role>, st: State, st': State, s: Shard, x: nat, snap: Rows, i: nat, k: Key)
    requires ReadsApart(c) && Cast(c, roles) && Sees(c, roles, st, i, k) && ExecuteStep(c, st, st', s, x, snap)
    requires RoleOf(roles, i) == Probes(k) && Reads(c, i, k)
    ensures TwinReads(c, st') && Probed(c, st', i, k)
  {
    hide PlaysOut; hide ReadsApart; hide Qualify; hide ExecuteStep; hide Snapshot; hide Runs; hide Execute;
    hide WithinDeclaration; hide Merged; hide Cast; hide Arrived; hide Look; hide Reads;
    ExecuteChanges(c, st, st', s, x, snap);
    if x == i {
      SnapShows(c, st, s, i, snap, k);
      ProbeFinds(c, roles, i, snap, s, k);
    }
  }

  lemma ProbeFinds(c: Job, roles: map<nat, Role>, i: nat, snap: Rows, s: Shard, k: Key)
    requires Cast(c, roles) && i < |c.block| && RoleOf(roles, i) == Probes(k)
    ensures Execute(c.block[i], snap, Some(s)).success <==> Look(snap, Qualify(s, k)) == Blank
  {
    Plays(c.block[i], Probes(k), snap, Some(s));
  }

  lemma SeesKept(c: Job, roles: map<nat, Role>, st: State, st': State, i: nat, k: Key)
    requires ReadsApart(c) && Cast(c, roles) && RoleOf(roles, i) == Probes(k) && Reads(c, i, k)
    requires Ordered(c, st) && Sees(c, roles, st, i, k) && Next(c, st, st')
    ensures Sees(c, roles, st', i, k)
  {
    PlaysOutKept(c, roles, st, st');
    hide ReadStep; hide ExecuteStep; hide FinishStep; hide Cast; hide Ordered; hide PlaysOut; hide ReadsApart;
    if s, x: nat :| ReadStep(c, st, st', s, x) {
      ReadSees(c, roles, st, st', s, x, i, k);
    } else if s, x: nat, snap :| ExecuteStep(c, st, st', s, x, snap) {
      ExecuteSees(c, roles, st, st', s, x, snap, i, k);
    } else {
      var s, x: nat, after :| FinishStep(c, st, st', s, x, after);
      FinishSameRan(c, st, st', s, x, after);
    }
  }

  lemma SeesAtStart(c: Job, roles: map<nat, Role>, i: nat, k: Key)
    ensures Sees(c, roles, Init(c), i, k)
  {
  }

  // ---- Five ways to break it ----

  /** A complete run of a block of the same shape that does not end serially. */
  ghost predicate Breaks(c: Job, d: Job, run: seq<State>) {
    SameShape(c, d) && WellFormed(d) && IsRun(d, run) && Finished(d, Last(run)) && !EndsSerial(d, Last(run))
  }

  lemma ShapeReadsApart(c: Job, d: Job)
    requires SameShape(c, d) && ReadsApart(c)
    ensures ReadsApart(d)
  {
    ShapeDeclares(c, d);
    hide Runs; hide Reads; hide At; hide Qualify; hide DeclaredReads; hide DeclaredWrites; hide Lives; hide Declares;
    hide Writes;
    forall s, i: nat, a, b | Runs(d, s, i) && Reads(d, i, a) && Reads(d, i, b) && Qualify(s, a) == Qualify(s, b)
      ensures a == b || (At(d, a, s) && At(d, b, s))
    {
      ShapeRuns(c, d, s, i);
    }
  }

  /** A probe that finds the wrong value ends a run that is not serial. */
  lemma WrongProbe(c: Job, roles: map<nat, Role>, run: seq<State>, i: nat, k: Key, serial: Value)
    requires WellFormed(c) && IsRun(c, run) && Finished(c, Last(run)) && Cast(c, roles) && i < |c.block|
    requires RoleOf(roles, i) == Probes(k) && k in c.home
    requires Probed(c, Last(run), i, k) && ValueAt(c, Unchecked, i, Where(c, k)) == serial
    requires (serial == Blank) != (Merged(c, Last(run).readBy, k, i) == Blank)
    ensures !EndsSerial(c, Last(run))
  {
    hide WellFormed; hide Next; hide Cast; hide ValueAt; hide OutcomeAt; hide Merged; hide RoleOf; hide Where;
    hide Runs; hide Participates; hide Peek; hide Granted; hide Arrived;
    ProbesSerial(c, Unchecked, roles, i, k);
    RunOrdered(c, run);
    var s := SomeoneExecutes(c, i);
    assert (s, i) in Last(run).done;
    assert (s, i) in Last(run).ran;
  }

  lemma OneRow(c: Job, k: Key, p: Place)
    requires Lives(c, k, p)
    ensures k in c.home && Where(c, k) == p && At(c, k, p.0) && Qualify(p.0, k) == p.1
  {
  }

  lemma StoredOne(c: Job, k: Key, v: Value, p: Place, prior: Value)
    requires Lives(c, k, p)
    ensures Stored(c, map[k := v], p, prior) == v
  {
    StoredLast(c, map[k := v], p, k, prior);
  }

  // A later transaction reads before an earlier one has stored.

  ghost predicate TooEarly(c: Job, roles: map<nat, Role>, p: Place, j: nat, i: nat, b: Key, st: State) {
    && Sees(c, roles, st, i, b)
    && ((p.0, j) !in st.done
      ==> Peek(st.working, p) == Blank && ((p.0, i) in st.readBy ==> Look(st.readBy[(p.0, i)], b) == Blank))
  }

  lemma TooEarlyKept(c: Job, roles: map<nat, Role>, p: Place, j: nat, i: nat, b: Key, st: State, st': State)
    requires ReadsApart(c) && Cast(c, roles) && RoleOf(roles, i) == Probes(b) && Reads(c, i, b) && Lives(c, b, p)
    requires forall x: nat :: x != j ==> Wrote(RoleOf(roles, x)) == map[]
    requires Ordered(c, st) && TooEarly(c, roles, p, j, i, b, st) && Next(c, st, st')
    ensures TooEarly(c, roles, p, j, i, b, st')
  {
    hide ReadStep; hide ExecuteStep; hide FinishStep; hide Cast; hide Ordered; hide ReadsApart; hide Wrote;
    hide RoleOf; hide Peek; hide Look; hide Reads; hide Lives; hide Qualify; hide TwinReads; hide Probed;
    hide PlaysOut; hide ReadResult;
    SeesKept(c, roles, st, st', i, b);
    OneRow(c, b, p);
    if s, x: nat :| ReadStep(c, st, st', s, x) {
      ReadSameRan(c, st, st', s, x);
      if (s, x) == (p.0, i) {
        ReadTwins(c, st, s, x, b);
      }
    } else if s, x: nat, snap :| ExecuteStep(c, st, st', s, x, snap) {
      ExecuteChanges(c, st, st', s, x, snap);
    } else {
      var s, x: nat, after :| FinishStep(c, st, st', s, x, after);
      FinishSameRan(c, st, st', s, x, after);
      if (s, x) != (p.0, j) {
        OthersLeave(c, roles, st, st', s, x, after, p);
      }
    }
  }

  ghost predicate ReadBlank(c: Job, roles: map<nat, Role>, s: Shard, i: nat, b: Key, v: Value, st: State) {
    Sees(c, roles, st, i, b) && (s, i) in st.readBy && Look(st.readBy[(s, i)], b) == v
  }

  lemma ReadBlankKept(c: Job, roles: map<nat, Role>, s: Shard, i: nat, b: Key, v: Value, st: State, st': State)
    requires ReadsApart(c) && Cast(c, roles) && RoleOf(roles, i) == Probes(b) && Reads(c, i, b)
    requires Ordered(c, st) && ReadBlank(c, roles, s, i, b, v, st) && Next(c, st, st')
    ensures ReadBlank(c, roles, s, i, b, v, st')
  {
    hide ReadStep; hide ExecuteStep; hide FinishStep; hide Sees; hide Ordered; hide ReadsApart; hide Cast; hide Look;
    hide ReadResult; hide Reads; hide RoleOf;
    SeesKept(c, roles, st, st', i, b);
    if t, x: nat :| ReadStep(c, st, st', t, x) {
      ReadSameRan(c, st, st', t, x);
    } else if t, x: nat, snap :| ExecuteStep(c, st, st', t, x, snap) {
      ExecuteChanges(c, st, st', t, x, snap);
    } else {
      var t, x: nat, after :| FinishStep(c, st, st', t, x, after);
      FinishSameRan(c, st, st', t, x, after);
    }
  }

  /** A staged block, ready to run. */
  lemma Stage1(c: Job, roles: map<nat, Role>, bases: Stores) returns (d: Job)
    requires WellFormed(c) && forall i: nat :: i < |c.block| ==> Allowed(c, i, RoleOf(roles, i))
    ensures SameShape(c, d) && WellFormed(d) && Cast(d, roles) && Harmless(d) && d.bases == bases
    ensures ReadsApart(c) ==> ReadsApart(d)
  {
    hide WellFormed; hide Cast; hide Allowed; hide ReadsApart; hide Harmless; hide SameShape;
    d := Staged(c, roles, bases);
    ShapeWellFormed(c, d);
    CastIsHarmless(d, roles);
    if ReadsApart(c) {
      ShapeReadsApart(c, d);
    }
  }

  lemma TakesPart(c: Job, i: nat, k: Key, p: Place)
    requires Declares(c, i, k) && Lives(c, k, p)
    ensures Valid(c, ReadAt(p.0, i)) && Valid(c, FreeAt(p.0, i))
  {
    assert At(c, k, p.0);
  }

  lemma EarlyReadBreaks(c: Job, p: Place, j: nat, a: Key, i: nat, b: Key) returns (d: Job, run: seq<State>)
    requires WellFormed(c) && ReadsApart(c) && Lives(c, a, p) && Lives(c, b, p) && Writes(c, j, a) && Reads(c, i, b)
    requires j < i
    requires !Precedes(c, FreeAt(p.0, j), ReadAt(p.0, i))
    ensures Breaks(c, d, run)
  {
    hide WellFormed; hide ReadsApart; hide Precedes; hide Harmless; hide Next; hide Ordered; hide Finished;
    hide EndsSerial; hide DeclaredReads; hide DeclaredWrites; hide Cast; hide SameShape; hide ValueAt; hide Qualify;
    hide Stored; hide Where; hide Lives; hide Sees; hide Kept;
    var v := Text(a.name);
    var roles: map<nat, Role> := map[j := Puts1(a, v), i := Probes(b)];
    d := Stage1(c, roles, map[]);
    ShapeDeclares(c, d);
    TakesPart(d, i, b, p);
    var run0 := ReachEvent(d, ReadAt(p.0, i));
    ShapePrecedes(c, d, FreeAt(p.0, j), ReadAt(p.0, i));
    assert !Happened(Last(run0), FreeAt(p.0, j)) && Happened(Last(run0), ReadAt(p.0, i));
    EarlyRun(d, roles, p, j, i, b, run0);
    OneRow(d, b, p);
    run := BlankRun(d, roles, p.0, i, b, Blank, run0);
    OneStores(d, Unchecked, roles, j, i, p);
    StoredOne(d, a, v, p, Blank);
    WrongProbe(d, roles, run, i, b, v);
  }

  lemma EarlyRun(d: Job, roles: map<nat, Role>, p: Place, j: nat, i: nat, b: Key, run: seq<State>)
    requires ReadsApart(d) && Cast(d, roles) && RoleOf(roles, i) == Probes(b) && Reads(d, i, b) && Lives(d, b, p)
    requires d.bases == map[]
    requires forall x: nat :: x != j ==> Wrote(RoleOf(roles, x)) == map[]
    requires IsRun(d, run)
    ensures TooEarly(d, roles, p, j, i, b, Last(run))
  {
    hide ReadsApart; hide Cast; hide Next; hide Ordered; hide Wrote; hide RoleOf; hide Reads; hide Lives;
    SeesAtStart(d, roles, i, b);
    hide Sees;
    var inv := (st: State) => TooEarly(d, roles, p, j, i, b, st);
    assert TooEarly(d, roles, p, j, i, b, Init(d));
    hide TooEarly;
    forall st, st' | Ordered(d, st) && inv(st) && Next(d, st, st')
      ensures inv(st')
    {
      TooEarlyKept(d, roles, p, j, i, b, st, st');
    }
    Always(d, run, inv);
  }

  lemma BlankRun(d: Job, roles: map<nat, Role>, s: Shard, i: nat, b: Key, v: Value, run0: seq<State>)
      returns (run: seq<State>)
    requires WellFormed(d) && Harmless(d) && ReadsApart(d) && Cast(d, roles) && RoleOf(roles, i) == Probes(b)
    requires Reads(d, i, b) && At(d, b, s)
    requires IsRun(d, run0) && Last(run0).failed == {} && ReadBlank(d, roles, s, i, b, v, Last(run0))
    ensures IsRun(d, run) && Finished(d, Last(run)) && Probed(d, Last(run), i, b)
    ensures Merged(d, Last(run).readBy, b, i) == v
  {
    hide WellFormed; hide Harmless; hide ReadsApart; hide Cast; hide Next; hide Ordered; hide RoleOf; hide Reads;
    hide Finished; hide ReadBlank;
    var inv := (st: State) => ReadBlank(d, roles, s, i, b, v, st);
    forall st, st' | Ordered(d, st) && inv(st) && Next(d, st, st')
      ensures inv(st')
    {
      ReadBlankKept(d, roles, s, i, b, v, st, st');
    }
    run := Complete(d, run0, inv);
    ReadBlankMeans(d, roles, s, i, b, v, Last(run));
  }

  lemma ReadBlankMeans(d: Job, roles: map<nat, Role>, s: Shard, i: nat, b: Key, v: Value, st: State)
    requires ReadBlank(d, roles, s, i, b, v, st) && At(d, b, s)
    ensures Probed(d, st, i, b) && Merged(d, st.readBy, b, i) == v
  {
  }

  // An earlier transaction reads after a later one has stored.

  /** A release stores what the transaction puts. */
  lemma ReleaseStores(c: Job, roles: map<nat, Role>, st: State, st': State, i: nat, after: Rows, p: Place, b: Key,
      v: Value)
    requires FinishStep(c, st, st', p.0, i, after) && PlaysOut(c, roles, st) && RoleOf(roles, i) == Puts1(b, v)
    requires Lives(c, b, p) && Writes(c, i, b) && |c.seat| == |c.block|
    ensures Peek(st'.working, p) == v
  {
    OneRow(c, b, p);
    OwnerRuns(c, p.0, i, b);
    hide Qualify; hide Look; hide Runs; hide RoleOf; hide Lives; hide Writes;
    assert Produced(c, st, p.0, i) == map[b := v];
    assert Holds(c, p.0, map[b := v], after, b);
  }

  lemma OwnerRuns(c: Job, s: Shard, i: nat, b: Key)
    requires Writes(c, i, b) && At(c, b, s) && |c.seat| == |c.block|
    ensures Runs(c, s, i)
  {
  }

  ghost predicate Storing(c: Job, roles: map<nat, Role>, p: Place, j: nat, a: Key, i: nat, v: Value, st: State) {
    Sees(c, roles, st, j, a) && ((p.0, i) in st.done ==> Peek(st.working, p) == v)
  }

  lemma StoringKept(c: Job, roles: map<nat, Role>, p: Place, j: nat, a: Key, i: nat, b: Key, v: Value, st: State,
      st': State)
    requires ReadsApart(c) && Cast(c, roles) && RoleOf(roles, j) == Probes(a) && Reads(c, j, a)
    requires RoleOf(roles, i) == Puts1(b, v) && Lives(c, b, p) && Writes(c, i, b) && |c.seat| == |c.block|
    requires forall x: nat :: x != i ==> Wrote(RoleOf(roles, x)) == map[]
    requires Ordered(c, st) && Storing(c, roles, p, j, a, i, v, st) && Next(c, st, st')
    ensures Storing(c, roles, p, j, a, i, v, st')
  {
    SeesKept(c, roles, st, st', j, a);
    hide ReadStep; hide ExecuteStep; hide FinishStep; hide Cast; hide Ordered; hide ReadsApart; hide Wrote;
    hide RoleOf; hide Peek; hide Reads; hide Lives; hide Writes; hide TwinReads; hide Probed; hide PlaysOut;
    if s, x: nat :| ReadStep(c, st, st', s, x) {
      ReadSameRan(c, st, st', s, x);
    } else if s, x: nat, snap :| ExecuteStep(c, st, st', s, x, snap) {
      ExecuteChanges(c, st, st', s, x, snap);
    } else {
      var s, x: nat, after :| FinishStep(c, st, st', s, x, after);
      FinishSameRan(c, st, st', s, x, after);
      if (s, x) == (p.0, i) {
        ReleaseStores(c, roles, st, st', i, after, p, b, v);
      } else {
        OthersLeave(c, roles, st, st', s, x, after, p);
      }
    }
  }

  ghost predicate TooLate(c: Job, roles: map<nat, Role>, p: Place, j: nat, a: Key, i: nat, v: Value, st: State) {
    && Storing(c, roles, p, j, a, i, v, st) && (p.0, i) in st.done
    && ((p.0, j) in st.readBy ==> Look(st.readBy[(p.0, j)], a) == v)
  }

  lemma TooLateKept(c: Job, roles: map<nat, Role>, p: Place, j: nat, a: Key, i: nat, b: Key, v: Value, st: State,
      st': State)
    requires ReadsApart(c) && Cast(c, roles) && RoleOf(roles, j) == Probes(a) && Reads(c, j, a) && Lives(c, a, p)
    requires RoleOf(roles, i) == Puts1(b, v) && Lives(c, b, p) && Writes(c, i, b) && |c.seat| == |c.block|
    requires forall x: nat :: x != i ==> Wrote(RoleOf(roles, x)) == map[]
    requires Ordered(c, st) && TooLate(c, roles, p, j, a, i, v, st) && Next(c, st, st')
    ensures TooLate(c, roles, p, j, a, i, v, st')
  {
    StoringKept(c, roles, p, j, a, i, b, v, st, st');
    OneRow(c, a, p);
    hide ReadStep; hide ExecuteStep; hide FinishStep; hide Cast; hide Ordered; hide ReadsApart; hide Wrote;
    hide RoleOf; hide Peek; hide Look; hide Reads; hide Lives; hide Writes; hide Sees; hide Qualify;
    if s, x: nat :| ReadStep(c, st, st', s, x) {
      ReadSameRan(c, st, st', s, x);
      if (s, x) == (p.0, j) {
        ReadTwins(c, st, s, x, a);
      }
    } else if s, x: nat, snap :| ExecuteStep(c, st, st', s, x, snap) {
      ExecuteChanges(c, st, st', s, x, snap);
    } else {
      var s, x: nat, after :| FinishStep(c, st, st', s, x, after);
      FinishSameRan(c, st, st', s, x, after);
    }
  }

  lemma LateReadBreaks(c: Job, p: Place, j: nat, a: Key, i: nat, b: Key) returns (d: Job, run: seq<State>)
    requires WellFormed(c) && ReadsApart(c) && Lives(c, a, p) && Lives(c, b, p) && Reads(c, j, a) && Writes(c, i, b)
    requires j < i
    requires !Precedes(c, ReadAt(p.0, j), FreeAt(p.0, i))
    ensures Breaks(c, d, run)
  {
    hide WellFormed; hide ReadsApart; hide Precedes; hide Harmless; hide Next; hide Ordered; hide Finished;
    hide EndsSerial; hide DeclaredReads; hide DeclaredWrites; hide Cast; hide SameShape; hide ValueAt; hide Qualify;
    hide Stored; hide Where; hide Lives; hide Sees; hide Kept;
    var v := Text(b.name);
    var roles: map<nat, Role> := map[j := Probes(a), i := Puts1(b, v)];
    d := Stage1(c, roles, map[]);
    ShapeDeclares(c, d);
    TakesPart(d, i, b, p);
    TakesPart(d, j, a, p);
    var run0 := ReachEvent(d, FreeAt(p.0, i));
    ShapePrecedes(c, d, ReadAt(p.0, j), FreeAt(p.0, i));
    assert !Happened(Last(run0), ReadAt(p.0, j)) && Happened(Last(run0), FreeAt(p.0, i));
    run := LateRun(d, roles, p, j, a, i, b, v, run0);
    OneRow(d, a, p);
    OneStores(d, Unchecked, roles, i, j, p);
    WrongProbe(d, roles, run, j, a, Blank);
  }

  lemma LateRun(d: Job, roles: map<nat, Role>, p: Place, j: nat, a: Key, i: nat, b: Key, v: Value, run0: seq<State>)
      returns (run: seq<State>)
    requires WellFormed(d) && Harmless(d) && ReadsApart(d) && Cast(d, roles) && RoleOf(roles, j) == Probes(a)
    requires Reads(d, j, a) && Lives(d, a, p)
    requires RoleOf(roles, i) == Puts1(b, v) && Lives(d, b, p) && Writes(d, i, b)
    requires forall x: nat :: x != i ==> Wrote(RoleOf(roles, x)) == map[]
    requires IsRun(d, run0) && Last(run0).failed == {} && (p.0, i) in Last(run0).done && (p.0, j) !in Last(run0).readBy
    ensures IsRun(d, run) && Finished(d, Last(run)) && Probed(d, Last(run), j, a)
    ensures Merged(d, Last(run).readBy, a, j) == v
  {
    hide Harmless; hide ReadsApart; hide Cast; hide Next; hide Ordered; hide RoleOf; hide Reads; hide Lives;
    hide Writes; hide Wrote; hide Canonical; hide Finished;
    assert |d.seat| == |d.block|;
    hide Sound; hide WellFormed;
    SeesAtStart(d, roles, j, a);
    hide Sees;
    var early := (st: State) => Storing(d, roles, p, j, a, i, v, st);
    assert Storing(d, roles, p, j, a, i, v, Init(d));
    hide Storing;
    forall st, st' | Ordered(d, st) && early(st) && Next(d, st, st')
      ensures early(st')
    {
      StoringKept(d, roles, p, j, a, i, b, v, st, st');
    }
    Always(d, run0, early);
    var inv := (st: State) => TooLate(d, roles, p, j, a, i, v, st);
    assert TooLate(d, roles, p, j, a, i, v, Last(run0));
    hide TooLate;
    forall st, st' | Ordered(d, st) && inv(st) && Next(d, st, st')
      ensures inv(st')
    {
      TooLateKept(d, roles, p, j, a, i, b, v, st, st');
    }
    run := Complete(d, run0, inv);
    RunOrdered(d, run);
    LateMeans(d, roles, p, j, a, i, v, Last(run));
  }

  lemma LateMeans(d: Job, roles: map<nat, Role>, p: Place, j: nat, a: Key, i: nat, v: Value, st: State)
    requires TooLate(d, roles, p, j, a, i, v, st) && Finished(d, st) && Ordered(d, st) && Reads(d, j, a)
    requires Lives(d, a, p)
    ensures Probed(d, st, j, a) && Merged(d, st.readBy, a, j) == v
  {
    hide Granted; hide Arrived; hide Runs; hide TwinReads; hide PlaysOut; hide DeclaredReads; hide DeclaredWrites;
    hide Peek;
    assert Declares(d, j, a);
    TakesPart(d, j, a, p);
    assert (p.0, j) in st.done;
  }

  // An earlier transaction stores after a later one.

  ghost predicate Overwritten(c: Job, roles: map<nat, Role>, p: Place, j: nat, i: nat, v: Value, st: State) {
    PlaysOut(c, roles, st) && (p.0, i) in st.done && ((p.0, j) in st.done ==> Peek(st.working, p) == v)
  }

  lemma OverwrittenKept(c: Job, roles: map<nat, Role>, p: Place, j: nat, a: Key, i: nat, v: Value, st: State,
      st': State)
    requires Cast(c, roles) && RoleOf(roles, j) == Puts1(a, v) && Lives(c, a, p) && Writes(c, j, a)
    requires |c.seat| == |c.block|
    requires forall x: nat :: x != i && x != j ==> Wrote(RoleOf(roles, x)) == map[]
    requires Overwritten(c, roles, p, j, i, v, st) && Next(c, st, st')
    ensures Overwritten(c, roles, p, j, i, v, st')
  {
    PlaysOutKept(c, roles, st, st');
    hide ReadStep; hide ExecuteStep; hide FinishStep; hide Cast; hide Wrote; hide RoleOf; hide Peek; hide Lives;
    hide Writes; hide PlaysOut;
    if s, x: nat :| ReadStep(c, st, st', s, x) {
      ReadSameRan(c, st, st', s, x);
    } else if s, x: nat, snap :| ExecuteStep(c, st, st', s, x, snap) {
      ExecuteChanges(c, st, st', s, x, snap);
    } else {
      var s, x: nat, after :| FinishStep(c, st, st', s, x, after);
      FinishSameRan(c, st, st', s, x, after);
      if (s, x) == (p.0, j) {
        ReleaseStores(c, roles, st, st', j, after, p, a, v);
      } else if (s, x) != (p.0, i) {
        OthersLeave(c, roles, st, st', s, x, after, p);
      }
    }
  }

  lemma AlwaysPlays(d: Job, roles: map<nat, Role>, run: seq<State>)
    requires Cast(d, roles) && IsRun(d, run)
    ensures PlaysOut(d, roles, Last(run))
  {
    hide Cast; hide Next; hide Ordered; hide RoleOf; hide Wrote;
    var inv := (st: State) => PlaysOut(d, roles, st);
    assert PlaysOut(d, roles, Init(d));
    hide PlaysOut;
    forall st, st' | Ordered(d, st) && inv(st) && Next(d, st, st')
      ensures inv(st')
    {
      PlaysOutKept(d, roles, st, st');
    }
    Always(d, run, inv);
  }

  /** A wrong row at the end. */
  lemma WrongRow(c: Job, st: State, p: Place)
    requires Peek(st.working, p) != ValueAt(c, Unchecked, |c.block|, p)
    ensures !EndsSerial(c, st)
  {
    hide ValueAt; hide Peek; hide OutcomeAt;
  }

  lemma LateWriteBreaks(c: Job, p: Place, j: nat, a: Key, i: nat, b: Key) returns (d: Job, run: seq<State>)
    requires WellFormed(c) && Lives(c, a, p) && Lives(c, b, p) && Writes(c, j, a) && Writes(c, i, b) && j < i
    requires !Precedes(c, FreeAt(p.0, j), FreeAt(p.0, i))
    ensures Breaks(c, d, run)
  {
    hide WellFormed; hide ReadsApart; hide Precedes; hide Harmless; hide Next; hide Ordered; hide Finished;
    hide EndsSerial; hide DeclaredReads; hide DeclaredWrites; hide SameShape; hide ValueAt; hide Qualify; hide Stored;
    hide Where; hide Lives; hide Kept; hide Peek; hide Cast;
    var v := Text(a.name);
    var roles: map<nat, Role> := map[j := Puts1(a, v), i := Puts1(b, Blank)];
    d := Stage1(c, roles, map[]);
    ShapeDeclares(c, d);
    TakesPart(d, i, b, p);
    TakesPart(d, j, a, p);
    var run0 := ReachEvent(d, FreeAt(p.0, i));
    ShapePrecedes(c, d, FreeAt(p.0, j), FreeAt(p.0, i));
    assert !Happened(Last(run0), FreeAt(p.0, j)) && Happened(Last(run0), FreeAt(p.0, i));
    run := OverRun(d, roles, p, j, a, i, v, run0);
    LastPut(d, roles, p, j, a, i, b, v);
    WrongRow(d, Last(run), p);
  }

  lemma LastPut(d: Job, roles: map<nat, Role>, p: Place, j: nat, a: Key, i: nat, b: Key, v: Value)
    requires Cast(d, roles) && roles == map[j := Puts1(a, v), i := Puts1(b, Blank)] && j < i < |d.block|
    requires Lives(d, b, p)
    ensures ValueAt(d, Unchecked, |d.block|, p) == Blank
  {
    hide ValueAt; hide Stored; hide Cast; hide Puts; hide Harmless; hide Lives; hide RoleOf;
    assert RoleOf(roles, i) == Puts1(b, Blank) by { RoleHas(roles, i); }
    StoresIts(d, Unchecked, roles, i, p);
    StoredOne(d, b, Blank, p, ValueAt(d, Unchecked, i, p));
    CastIsHarmless(d, roles);
    forall x: nat | i + 1 <= x < |d.block|
      ensures Puts(d, x, map[])
    {
      RoleHas(roles, x);
      assert Puts(d, x, Wrote(RoleOf(roles, x)));
    }
    Steady(d, Unchecked, i + 1, |d.block|, p);
  }

  lemma RoleHas(roles: map<nat, Role>, x: nat)
    ensures RoleOf(roles, x) == if x in roles then roles[x] else Idles
  {
  }

  lemma OverRun(d: Job, roles: map<nat, Role>, p: Place, j: nat, a: Key, i: nat, v: Value, run0: seq<State>)
      returns (run: seq<State>)
    requires WellFormed(d) && Harmless(d) && Cast(d, roles) && RoleOf(roles, j) == Puts1(a, v) && Lives(d, a, p)
    requires Writes(d, j, a)
    requires forall x: nat :: x != i && x != j ==> Wrote(RoleOf(roles, x)) == map[]
    requires IsRun(d, run0) && Last(run0).failed == {} && (p.0, i) in Last(run0).done && (p.0, j) !in Last(run0).done
    ensures IsRun(d, run) && Finished(d, Last(run)) && Peek(Last(run).working, p) == v
  {
    hide Harmless; hide Cast; hide Next; hide Ordered; hide RoleOf; hide Lives; hide Wrote; hide Canonical;
    hide Finished; hide Peek; hide DeclaredReads; hide DeclaredWrites;
    assert |d.seat| == |d.block|;
    hide Sound; hide WellFormed;
    assert Declares(d, j, a);
    hide Writes; hide Declares;
    AlwaysPlays(d, roles, run0);
    var inv := (st: State) => Overwritten(d, roles, p, j, i, v, st);
    assert Overwritten(d, roles, p, j, i, v, Last(run0));
    hide Overwritten;
    forall st, st' | Ordered(d, st) && inv(st) && Next(d, st, st')
      ensures inv(st')
    {
      OverwrittenKept(d, roles, p, j, a, i, v, st, st');
    }
    run := Complete(d, run0, inv);
    TakesPart(d, j, a, p);
    OverMeans(d, roles, p, j, i, v, Last(run));
  }

  lemma OverMeans(d: Job, roles: map<nat, Role>, p: Place, j: nat, i: nat, v: Value, st: State)
    requires Overwritten(d, roles, p, j, i, v, st) && Finished(d, st) && Valid(d, FreeAt(p.0, j))
    ensures Peek(st.working, p) == v
  {
    hide PlaysOut; hide Peek; hide Participates;
  }

  // One transaction writes two names of a row.

  ghost predicate Settled(c: Job, roles: map<nat, Role>, p: Place, i: nat, v: Value, st: State) {
    PlaysOut(c, roles, st) && (p.0, i) in st.done && Peek(st.working, p) == v
  }

  lemma SettledKept(c: Job, roles: map<nat, Role>, p: Place, i: nat, v: Value, st: State, st': State)
    requires Cast(c, roles) && (forall x: nat :: x != i ==> Wrote(RoleOf(roles, x)) == map[])
    requires Settled(c, roles, p, i, v, st) && Next(c, st, st')
    ensures Settled(c, roles, p, i, v, st')
  {
    PlaysOutKept(c, roles, st, st');
    hide ReadStep; hide ExecuteStep; hide FinishStep; hide Cast; hide Wrote; hide RoleOf; hide Peek; hide Lives;
    hide PlaysOut;
    if s, x: nat :| ReadStep(c, st, st', s, x) {
      ReadSameRan(c, st, st', s, x);
    } else if s, x: nat, snap :| ExecuteStep(c, st, st', s, x, snap) {
      ExecuteChanges(c, st, st', s, x, snap);
    } else {
      var s, x: nat, after :| FinishStep(c, st, st', s, x, after);
      FinishSameRan(c, st, st', s, x, after);
      OthersLeave(c, roles, st, st', s, x, after, p);
    }
  }

  lemma HoldsStill(c: Job, s: Shard, writes: Rows, after: Rows, lo: Key, k: Key)
    requires lo in writes && At(c, lo, s) && Holds(c, s, writes, after, k)
    ensures Holds(c, s, writes, after[Qualify(s, lo) := writes[lo]], k)
  {
    hide Qualify;
    if Qualify(s, lo) != Qualify(s, k) {
      var a :| a in writes && At(c, a, s) && Qualify(s, a) == Qualify(s, k) && Look(after, Qualify(s, k)) == writes[a];
      assert Look(after[Qualify(s, lo) := writes[lo]], Qualify(s, k)) == writes[a];
    }
  }

  /** The rows may be stored so that `lo` comes last. */
  lemma StoreLowLast(c: Job, s: Shard, writes: Rows, before: Rows, lo: Key) returns (after: Rows)
    requires lo in writes && At(c, lo, s)
    ensures Materialized(c, s, writes, before, after) && Look(after, Qualify(s, lo)) == writes[lo]
  {
    hide Qualify; hide Holds;
    var after0 := StoreExists(c, s, writes, before);
    after := after0[Qualify(s, lo) := writes[lo]];
    forall k | k in writes && At(c, k, s)
      ensures Holds(c, s, writes, after, k)
    {
      HoldsStill(c, s, writes, after0, lo, k);
    }
  }

  lemma TwoWritesBreak(c: Job, p: Place, i: nat, lo: Key, hi: Key) returns (d: Job, run: seq<State>)
    requires WellFormed(c) && Lives(c, lo, p) && Lives(c, hi, p) && Writes(c, i, lo) && Writes(c, i, hi)
    requires RankOf(c, lo) < RankOf(c, hi)
    ensures Breaks(c, d, run)
  {
    hide WellFormed; hide ReadsApart; hide Precedes; hide Harmless; hide Next; hide Ordered; hide Finished;
    hide EndsSerial; hide DeclaredReads; hide DeclaredWrites; hide ValueAt; hide Qualify; hide Stored; hide Where;
    hide Lives; hide Kept; hide Peek; hide Cast;
    var v := Text(lo.name);
    var roles: map<nat, Role> := map[i := Puts2(lo, v, hi, Blank)];
    d := Stage1(c, roles, map[]);
    ShapeDeclares(c, d);
    assert RankOf(d, lo) < RankOf(d, hi);
    hide SameShape;
    run := LowRun(d, roles, p, i, lo, hi, v);
    OneStores(d, Unchecked, roles, i, |d.block|, p);
    HighLast(d, p, lo, hi, v);
    WrongRow(d, Last(run), p);
  }

  lemma HighLast(c: Job, p: Place, lo: Key, hi: Key, v: Value)
    requires Lives(c, lo, p) && Lives(c, hi, p) && RankOf(c, lo) < RankOf(c, hi)
    ensures Stored(c, map[lo := v][hi := Blank], p, Peek(c.bases, p)) == Blank
  {
    hide Lives; hide RankOf; hide Stored; hide Peek;
    assert ComesLast(c, map[lo := v][hi := Blank], p, hi);
    StoredLast(c, map[lo := v][hi := Blank], p, hi, Peek(c.bases, p));
  }

  lemma LowRun(d: Job, roles: map<nat, Role>, p: Place, i: nat, lo: Key, hi: Key, v: Value) returns (run: seq<State>)
    requires WellFormed(d) && Harmless(d) && Cast(d, roles) && roles == map[i := Puts2(lo, v, hi, Blank)] && lo != hi
    requires Lives(d, lo, p) && Writes(d, i, lo)
    ensures IsRun(d, run) && Finished(d, Last(run)) && Peek(Last(run).working, p) == v
  {
    hide Harmless; hide Cast; hide Next; hide Ordered; hide Lives; hide Canonical; hide Finished; hide Peek;
    hide DeclaredReads; hide DeclaredWrites; hide Qualify; hide Happened; hide Needs; hide Look; hide Materialized;
    assert |d.seat| == |d.block|;
    hide Sound; hide WellFormed;
    assert Declares(d, i, lo);
    TakesPart(d, i, lo, p);
    OneRow(d, lo, p);
    OwnerRuns(d, p.0, i, lo);
    var e := FreeAt(p.0, i);
    var run0 := ReachPast(d, e);
    var st := Last(run0);
    PastReady(d, st, e);
    AlwaysPlays(d, roles, run0);
    ReadyRan(d, st, p.0, i);
    hide Ready; hide Valid; hide Writes; hide Declares;
    assert Produced(d, st, p.0, i) == map[lo := v][hi := Blank] by { hide Runs; }
    hide Runs;
    var after := StoreLowLast(d, p.0, Produced(d, st, p.0, i), RowsAt(st.working, p.0), lo);
    var st' := PerformFree(d, st, p.0, i, after);
    hide Performed; hide Produced;
    PerformedNext(d, st, st', e);
    AppendRuns(d, run0, st');
    NeverFails(d, st, st');
    run := SettledRun(d, roles, p, i, v, run0 + [st'], after);
  }

  lemma PerformedNext(c: Job, st: State, st': State, e: Event)
    requires Performed(c, st, st', e)
    ensures Next(c, st, st')
  {
    hide Next;
  }

  lemma ReadyRan(c: Job, st: State, s: Shard, i: nat)
    requires Ready(c, st, FreeAt(s, i)) && Runs(c, s, i)
    ensures (s, i) in st.ran
  {
    hide Runs; hide Participates;
    assert Needs(c, FreeAt(s, i), RunAt(s, i));
    assert Happened(st, RunAt(s, i));
  }

  lemma SettledRun(d: Job, roles: map<nat, Role>, p: Place, i: nat, v: Value, run0: seq<State>, after: Rows)
      returns (run: seq<State>)
    requires WellFormed(d) && Harmless(d) && Cast(d, roles) && IsRun(d, run0) && Last(run0).failed == {}
    requires forall x: nat :: x != i ==> Wrote(RoleOf(roles, x)) == map[]
    requires (p.0, i) in Last(run0).done && p.0 in Last(run0).working && Last(run0).working[p.0] == after
    requires Look(after, p.1) == v
    ensures IsRun(d, run) && Finished(d, Last(run)) && Peek(Last(run).working, p) == v
  {
    hide Harmless; hide Cast; hide Next; hide Ordered; hide WellFormed; hide Finished; hide Wrote; hide RoleOf;
    hide Look;
    AlwaysPlays(d, roles, run0);
    hide PlaysOut;
    var inv := (st: State) => Settled(d, roles, p, i, v, st);
    assert Settled(d, roles, p, i, v, Last(run0));
    forall st, st' | Ordered(d, st) && inv(st) && Next(d, st, st')
      ensures inv(st')
    {
      hide Settled;
      SettledKept(d, roles, p, i, v, st, st');
    }
    run := Complete(d, run0, inv);
  }

  /** Once exactly its past has happened, an event can happen. */
  lemma PastReady(c: Job, st: State, e: Event)
    requires Valid(c, e) && st.failed == {} && forall d :: Happened(st, d) <==> Precedes(c, d, e)
    ensures Ready(c, st, e)
  {
    hide Happened; hide Needs; hide Precedes; hide Runs;
    forall m | Needs(c, e, m)
      ensures Happened(st, m)
    {
      Direct(c, m, e);
    }
    NotItsPast(c, e, e);
    InBlock(c, e);
  }

  lemma {:induction false} NotItsPast(c: Job, d: Event, e: Event)
    requires !Earlier(d, e)
    ensures !Precedes(c, d, e)
    decreases e.index, Stage(e)
  {
    hide Needs;
    if Needs(c, e, d) {
      NeedsDrop(c, e, d);
    }
    forall m | Needs(c, e, m)
      ensures !Precedes(c, d, m)
    {
      NeedsDrop(c, e, m);
      NotItsPast(c, d, m);
    }
  }

  // A shard executes on two reads of one row name that are different rows.

  /** Nobody writes: rows and read results are those of the start. */
  ghost predicate Still(c: Job, roles: map<nat, Role>, st: State) {
    && PlaysOut(c, roles, st) && (forall p: Place :: Peek(st.working, p) == Peek(c.bases, p))
    && (forall s, i, k :: (s, i) in st.readBy && Reads(c, i, k) && At(c, k, s)
          ==> Look(st.readBy[(s, i)], k) == Peek(c.bases, (s, Qualify(s, k))))
  }

  lemma StillKept(c: Job, roles: map<nat, Role>, st: State, st': State)
    requires Cast(c, roles) && (forall x: nat :: Wrote(RoleOf(roles, x)) == map[]) && Still(c, roles, st)
    requires Next(c, st, st')
    ensures Still(c, roles, st')
  {
    hide ReadStep; hide ExecuteStep; hide FinishStep; hide Cast; hide Wrote; hide RoleOf; hide Peek; hide PlaysOut;
    hide Reads; hide Qualify; hide Look; hide ReadResult; hide At; hide Lives;
    PlaysOutKept(c, roles, st, st');
    if s, x: nat :| ReadStep(c, st, st', s, x) {
      ReadSameRan(c, st, st', s, x);
      forall k | Reads(c, x, k) && At(c, k, s)
        ensures Look(st'.readBy[(s, x)], k) == Peek(c.bases, (s, Qualify(s, k)))
      {
        ReadTwins(c, st, s, x, k);
      }
    } else if s, x: nat, snap :| ExecuteStep(c, st, st', s, x, snap) {
      ExecuteChanges(c, st, st', s, x, snap);
    } else {
      var s, x: nat, after :| FinishStep(c, st, st', s, x, after);
      FinishSameRan(c, st, st', s, x, after);
      forall p: Place
        ensures Peek(st'.working, p) == Peek(c.bases, p)
      {
        OthersLeave(c, roles, st, st', s, x, after, p);
      }
    }
  }

  lemma AlwaysStill(d: Job, roles: map<nat, Role>, run: seq<State>)
    requires Cast(d, roles) && (forall x: nat :: Wrote(RoleOf(roles, x)) == map[]) && IsRun(d, run)
    ensures Still(d, roles, Last(run))
  {
    hide Cast; hide Next; hide Ordered; hide RoleOf; hide Wrote; hide Peek;
    var inv := (st: State) => Still(d, roles, st);
    assert Still(d, roles, Init(d));
    hide Still;
    forall st, st' | Ordered(d, st) && inv(st) && Next(d, st, st')
      ensures inv(st')
    {
      StillKept(d, roles, st, st');
    }
    Always(d, run, inv);
  }

  lemma JustStored(rows: Rows, k: Key, v: Value)
    ensures Look(rows[k := v], k) == v
  {
  }

  lemma ShowsWith(c: Job, readBy: map<Part, Rows>, s: Shard, i: nat, snap: Rows, b: Key, k: Key)
    requires Reads(c, i, b) && Shows(c, readBy, s, i, snap, k)
    ensures Shows(c, readBy, s, i, snap[Qualify(s, b) := Merged(c, readBy, b, i)], k)
  {
    hide Reads; hide Qualify; hide Merged;
    var a :| Reads(c, i, a) && Qualify(s, a) == Qualify(s, k) && Look(snap, Qualify(s, k)) == Merged(c, readBy, a, i);
  }

  lemma KeepsWith(c: Job, working: Stores, s: Shard, i: nat, snap: Rows, b: Key, v: Value, k: Key)
    requires Reads(c, i, b) && Keeps(c, working, s, i, snap, k)
    ensures Keeps(c, working, s, i, snap[Qualify(s, b) := v], k)
  {
    hide Reads; hide Qualify; hide Peek;
  }

  /** Merging may store the value of `b` last. */
  lemma SnapshotWith(c: Job, st: State, s: Shard, i: nat, b: Key) returns (snap: Rows)
    requires Reads(c, i, b)
    ensures Snapshot(c, st, s, i, snap) && Look(snap, Qualify(s, b)) == Merged(c, st.readBy, b, i)
  {
    hide DeclaredReads; hide DeclaredWrites; hide Qualify; hide Merged; hide Shows; hide Keeps; hide Look; hide At;
    var snap0 := SnapshotExists(c, st, s, i);
    snap := snap0[Qualify(s, b) := Merged(c, st.readBy, b, i)];
    JustStored(snap0, Qualify(s, b), Merged(c, st.readBy, b, i));
    forall k | Reads(c, i, k)
      ensures Shows(c, st.readBy, s, i, snap, k)
    {
      ShowsWith(c, st.readBy, s, i, snap0, b, k);
    }
    forall k | Declares(c, i, k) && At(c, k, s)
      ensures Keeps(c, st.working, s, i, snap, k)
    {
      KeepsWith(c, st.working, s, i, snap0, b, Merged(c, st.readBy, b, i), k);
    }
  }

  ghost predicate HasRun(s: Shard, i: nat, o: Outcome, st: State) {
    (s, i) in st.ran && st.ran[(s, i)] == o
  }

  lemma HasRunKept(c: Job, s: Shard, i: nat, o: Outcome, st: State, st': State)
    requires HasRun(s, i, o, st) && Next(c, st, st')
    ensures HasRun(s, i, o, st')
  {
    hide ReadStep; hide ExecuteStep; hide FinishStep;
    if t, x: nat :| ReadStep(c, st, st', t, x) {
      ReadSameRan(c, st, st', t, x);
    } else if t, x: nat, snap :| ExecuteStep(c, st, st', t, x, snap) {
      ExecuteChanges(c, st, st', t, x, snap);
    } else {
      var t, x: nat, after :| FinishStep(c, st, st', t, x, after);
      FinishSameRan(c, st, st', t, x, after);
    }
  }

  lemma SharedReadBreaks(c: Job, s: Shard, i: nat, a: Key, b: Key) returns (d: Job, run: seq<State>)
    requires WellFormed(c) && Runs(c, s, i) && Participates(c, s, i) && Reads(c, i, a) && Reads(c, i, b) && a != b
    requires Qualify(s, a) == Qualify(s, b)
    requires !(At(c, a, s) && At(c, b, s)) && a in c.home && b in c.home
    ensures Breaks(c, d, run)
  {
    hide WellFormed; hide Harmless; hide Next; hide Ordered; hide Finished; hide EndsSerial; hide DeclaredReads;
    hide DeclaredWrites; hide ValueAt; hide Cast; hide Runs; hide Participates; hide Stored;
    var v := Text(a.name);
    var roles: map<nat, Role> := map[i := Probes(a)];
    var bases: Stores := map[c.home[a] := map[Qualify(c.home[a], a) := v]];
    d := Stage1(c, roles, bases);
    ShapeDeclares(c, d);
    ShapeRuns(c, d, s, i);
    assert d.home == c.home;
    assert Where(d, a) != Where(d, b) && Peek(d.bases, Where(d, a)) == v && Peek(d.bases, Where(d, b)) == Blank;
    hide SameShape; hide Peek; hide Qualify; hide Where; hide At; hide Reads; hide Writes; hide Declares; hide Lives;
    run := BlindRun(d, roles, s, i, a, b);
    NobodyStores(d, Unchecked, roles, i, Where(d, a));
    ProbesSerial(d, Unchecked, roles, i, a);
    WrongOutcome(d, Last(run), s, i);
  }

  lemma WrongOutcome(c: Job, st: State, s: Shard, i: nat)
    requires (s, i) in st.ran && i < |c.block| && st.ran[(s, i)].success != OutcomeAt(c, Unchecked, i).success
    ensures !EndsSerial(c, st)
  {
    hide OutcomeAt; hide ValueAt; hide Peek;
  }

  lemma BlindRun(d: Job, roles: map<nat, Role>, s: Shard, i: nat, a: Key, b: Key) returns (run: seq<State>)
    requires WellFormed(d) && Harmless(d) && Cast(d, roles) && roles == map[i := Probes(a)] && Runs(d, s, i)
    requires Participates(d, s, i)
    requires Reads(d, i, a) && Reads(d, i, b) && Qualify(s, a) == Qualify(s, b) && b in d.home
    requires Peek(d.bases, Where(d, b)) == Blank
    ensures IsRun(d, run) && Finished(d, Last(run)) && (s, i) in Last(run).ran && Last(run).ran[(s, i)].success
  {
    hide WellFormed; hide Harmless; hide Cast; hide Next; hide Ordered; hide Finished; hide Peek; hide DeclaredReads;
    hide DeclaredWrites; hide Qualify; hide Happened; hide Needs; hide Look; hide Snapshot; hide Execute; hide Reads;
    hide Precedes;
    var e := RunAt(s, i);
    assert Valid(d, e);
    var run0 := ReachPast(d, e);
    var st := Last(run0);
    PastReady(d, st, e);
    AlwaysStill(d, roles, run0);
    RunOrdered(d, run0);
    var snap := SnapshotWith(d, st, s, i, b);
    StartMerged(d, roles, st, s, i, b);
    ReadyInBlock(d, st, e);
    var st' := PerformRun(d, st, s, i, snap);
    hide Performed; hide Ready; hide Valid; hide Still; hide Runs; hide Participates; hide Merged;
    PerformedNext(d, st, st', e);
    AppendRuns(d, run0, st');
    NeverFails(d, st, st');
    ProbeFinds(d, roles, i, snap, s, a);
    var o := Execute(d.block[i], snap, Some(s));
    var inv := (x: State) => HasRun(s, i, o, x);
    assert HasRun(s, i, o, st');
    forall x, x' | Ordered(d, x) && inv(x) && Next(d, x, x')
      ensures inv(x')
    {
      HasRunKept(d, s, i, o, x, x');
    }
    run := Complete(d, run0 + [st'], inv);
    assert HasRun(s, i, o, Last(run));
  }

  /** Before a run, the merged value of a read is that of the start. */
  lemma StartMerged(d: Job, roles: map<nat, Role>, st: State, s: Shard, i: nat, b: Key)
    requires Still(d, roles, st) && Ready(d, st, RunAt(s, i)) && Reads(d, i, b) && b in d.home
    ensures Merged(d, st.readBy, b, i) == Peek(d.bases, Where(d, b))
  {
    hide Peek; hide Look; hide Reads; hide PlaysOut; hide Runs; hide Participates; hide Qualify;
    assert At(d, b, d.home[b]);
    assert Needs(d, RunAt(s, i), ReadAt(d.home[b], i));
    assert Happened(st, ReadAt(d.home[b], i));
  }

  // ---- The exact condition ----

  lemma Ranked(c: Job, a: Key, b: Key, p: Place)
    requires WellFormed(c) && Lives(c, a, p) && Lives(c, b, p) && a != b
    ensures RankOf(c, a) != RankOf(c, b)
  {
    hide RankOf; hide Canonical;
  }

  lemma HasHome(c: Job, i: nat, k: Key)
    requires WellFormed(c) && Reads(c, i, k)
    ensures k in c.home
  {
    hide RankOf; hide Canonical; hide DeclaredReads; hide DeclaredWrites;
    assert Declares(c, i, k);
  }

  /** Whenever the rows of a block are not orderly, some block with the very same access lists,
      homes and seats has a complete run that does not end serially. */
  lemma DisorderBreaks(c: Job) returns (d: Job, run: seq<State>)
    requires WellFormed(c) && !Orderly(c)
    ensures Breaks(c, d, run)
  {
    hide WellFormed; hide Breaks; hide Precedes; hide Runs; hide DeclaredReads; hide DeclaredWrites; hide Qualify;
    hide Lives; hide RankOf; hide At;
    if !ReadsApart(c) {
      var s, i: nat, a, b :| Runs(c, s, i) && Reads(c, i, a) && Reads(c, i, b) && Qualify(s, a) == Qualify(s, b)
        && a != b && !(At(c, a, s) && At(c, b, s));
      RunnerTakesPart(c, s, i);
      HasHome(c, i, a);
      HasHome(c, i, b);
      d, run := SharedReadBreaks(c, s, i, a, b);
    } else if !WritesApart(c) {
      var p: Place, i: nat, a, b :| Lives(c, a, p) && Lives(c, b, p) && Writes(c, i, a) && Writes(c, i, b) && a != b;
      Ranked(c, a, b, p);
      if RankOf(c, a) < RankOf(c, b) {
        d, run := TwoWritesBreak(c, p, i, a, b);
      } else {
        d, run := TwoWritesBreak(c, p, i, b, a);
      }
    } else {
      hide ReadsApart; hide WritesApart;
      var p: Place, j: nat, a, i: nat, b :| Lives(c, a, p) && Lives(c, b, p) && Declares(c, j, a) && Declares(c, i, b)
        && j < i && !InOrder(c, p.0, j, a, i, b);
      if Writes(c, j, a) && Reads(c, i, b) && !Precedes(c, FreeAt(p.0, j), ReadAt(p.0, i)) {
        d, run := EarlyReadBreaks(c, p, j, a, i, b);
      } else if Reads(c, j, a) && Writes(c, i, b) && !Precedes(c, ReadAt(p.0, j), FreeAt(p.0, i)) {
        d, run := LateReadBreaks(c, p, j, a, i, b);
      } else {
        d, run := LateWriteBreaks(c, p, j, a, i, b);
      }
    }
  }

  lemma ShapeOrderly(c: Job, d: Job)
    requires SameShape(c, d) && Orderly(c)
    ensures Orderly(d)
  {
    ShapeReadsApart(c, d);
    ShapeDeclares(c, d);
    hide ReadsApart; hide SameShape; hide Lives; hide Writes; hide Reads; hide Declares; hide Precedes;
    hide DeclaredReads; hide DeclaredWrites; hide At;
    forall p: Place, j: nat, a, i: nat, b | Lives(d, a, p) && Lives(d, b, p) && Declares(d, j, a) && Declares(d, i, b)
      && j < i
      ensures InOrder(d, p.0, j, a, i, b)
    {
      assert InOrder(c, p.0, j, a, i, b);
      ShapePrecedes(c, d, FreeAt(p.0, j), ReadAt(p.0, i));
      ShapePrecedes(c, d, ReadAt(p.0, j), FreeAt(p.0, i));
      ShapePrecedes(c, d, FreeAt(p.0, j), FreeAt(p.0, i));
    }
  }

  /** The exact condition: access lists, homes and seats guarantee serial results for all
      programs, starting rows and interleavings exactly if the rows are orderly. */
  lemma SerialExactly(c: Job)
    requires WellFormed(c)
    ensures Orderly(c)
      <==> forall d, run ::
        SameShape(c, d) && WellFormed(d) && IsRun(d, run) && Finished(d, Last(run)) ==> EndsSerial(d, Last(run))
  {
    hide WellFormed; hide Orderly; hide SameShape; hide EndsSerial; hide Finished; hide Next;
    if Orderly(c) {
      forall d, run | SameShape(c, d) && WellFormed(d) && IsRun(d, run) && Finished(d, Last(run))
        ensures EndsSerial(d, Last(run))
      {
        ShapeOrderly(c, d);
        SerialEquivalence(d, run);
      }
    } else {
      var d, run := DisorderBreaks(c);
    }
  }

  /** Two accesses of the same key are in order: the locks see to that. */
  lemma LocksOrder(c: Job, s: Shard, j: nat, i: nat, k: Key)
    requires j < i && Declares(c, j, k) && Declares(c, i, k) && At(c, k, s) && |c.seat| == |c.block|
    ensures InOrder(c, s, j, k, i, k)
  {
    hide DeclaredReads; hide DeclaredWrites; hide At;
    if Writes(c, j, k) || Writes(c, i, k) {
      assert Clash(c, s, j, i);
      assert Needs(c, ReadAt(s, i), FreeAt(s, j)) && Needs(c, FreeAt(s, i), ReadAt(s, i))
        && Needs(c, FreeAt(s, j), ReadAt(s, j));
      Direct(c, FreeAt(s, j), ReadAt(s, i));
      Direct(c, ReadAt(s, i), FreeAt(s, i));
      hide Precedes; hide Needs;
      Chain(c, FreeAt(s, j), ReadAt(s, i), FreeAt(s, i));
      Onwards(c, ReadAt(s, j), FreeAt(s, j), FreeAt(s, i));
    }
  }

  lemma Chain(c: Job, d: Event, m: Event, e: Event)
    requires Precedes(c, d, m) && Needs(c, e, m)
    ensures Precedes(c, d, e)
  {
    hide Needs;
  }

  /** Blocks in which no two declared names share a row are orderly. */
  lemma ApartIsOrderly(c: Job)
    requires WellFormed(c)
    requires forall s, i: nat, j: nat, a, b ::
      Declares(c, i, a) && Declares(c, j, b) && Qualify(s, a) == Qualify(s, b) ==> a == b
    ensures Orderly(c)
  {
    assert |c.seat| == |c.block|;
    hide WellFormed; hide DeclaredReads; hide DeclaredWrites; hide Qualify; hide Runs; hide Sound;
    forall s, i: nat, a, b | Runs(c, s, i) && Reads(c, i, a) && Reads(c, i, b) && Qualify(s, a) == Qualify(s, b)
      ensures a == b
    {
      assert Declares(c, i, a) && Declares(c, i, b);
    }
    forall p: Place, i: nat, a, b | Lives(c, a, p) && Lives(c, b, p) && Writes(c, i, a) && Writes(c, i, b)
      ensures a == b
    {
      assert Declares(c, i, a) && Declares(c, i, b) && Qualify(p.0, a) == Qualify(p.0, b);
    }
    forall p: Place, j: nat, a, i: nat, b | Lives(c, a, p) && Lives(c, b, p) && Declares(c, j, a) && Declares(c, i, b)
      && j < i
      ensures InOrder(c, p.0, j, a, i, b)
    {
      assert a == b && At(c, a, p.0);
      LocksOrder(c, p.0, j, i, a);
    }
  }
}
