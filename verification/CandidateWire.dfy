/** Consensus wires for first-pass candidates: a block carries the accepted transactions, the wire
    the deferred ones, and every validator rebuilds the original candidate list. */
module CandidateWire {

  import opened Basics

  datatype Item = Item(id: Id, logical: Token, body: Token)

  function Ids(items: seq<Item>): (r: seq<Id>)
    ensures |r| == |items| && forall i :: 0 <= i < |items| ==> r[i] == items[i].id
  {
    seq(|items|, i requires 0 <= i < |items| => items[i].id)
  }

  function Elems(ids: seq<Id>): set<Id> {
    set id | id in ids
  }

  /** Neither empty nor repeated. */
  ghost predicate Unique(ids: seq<Id>) {
    (forall i :: 0 <= i < |ids| ==> ids[i] != Empty) && (forall i, j :: 0 <= i < j < |ids| ==> ids[i] != ids[j])
  }

  /** The items whose identifier is, or is not, in a set; in order. */
  function Part(items: seq<Item>, s: set<Id>, inside: bool, n: nat): seq<Item>
    requires n <= |items|
  {
    if n == 0 then [] else
      Part(items, s, inside, n - 1) + if (items[n - 1].id in s) == inside then [items[n - 1]] else []
  }

  /** The identifiers outside a set, in order. */
  function Without(ids: seq<Id>, s: set<Id>, n: nat): seq<Id>
    requires n <= |ids|
  {
    if n == 0 then [] else
      Without(ids, s, n - 1) + if ids[n - 1] in s then [] else [ids[n - 1]]
  }

  lemma {:induction false} PartIds(items: seq<Item>, s: set<Id>, n: nat)
    requires n <= |items|
    ensures Ids(Part(items, s, false, n)) == Without(Ids(items), s, n)
  {
    if n > 0 {
      PartIds(items, s, n - 1);
      var before := Part(items, s, false, n - 1);
      assert Ids(before + [items[n - 1]]) == Ids(before) + [items[n - 1].id];
    }
  }

  lemma {:induction false} PartHas(items: seq<Item>, s: set<Id>, inside: bool, n: nat, x: Item)
    requires n <= |items|
    ensures x in Part(items, s, inside, n) <==> exists i :: 0 <= i < n && items[i] == x && (x.id in s) == inside
  {
    if n > 0 {
      PartHas(items, s, inside, n - 1, x);
    }
  }

  lemma {:induction false} WithoutHas(ids: seq<Id>, s: set<Id>, n: nat, id: Id)
    requires n <= |ids|
    ensures id in Without(ids, s, n) <==> id !in s && exists i :: 0 <= i < n && ids[i] == id
  {
    if n > 0 {
      WithoutHas(ids, s, n - 1, id);
    }
  }

  // ---- Counting ----

  lemma {:induction false} ElemsCount(ids: seq<Id>)
    ensures |Elems(ids)| <= |ids|
    ensures |Elems(ids)| == |ids| <==> Apart(ids)
  {
    if ids == [] {
      assert Elems(ids) == {};
    } else {
      var last, rest := ids[|ids| - 1], ids[..|ids| - 1];
      ElemsCount(rest);
      ApartOne(rest, last);
      assert ids == rest + [last];
      assert Elems(ids) == Elems(rest) + {last};
      hide Apart;
      if last in rest {
        assert Elems(ids) == Elems(rest);
      }
    }
  }

  ghost predicate Apart(ids: seq<Id>) {
    forall i, j :: 0 <= i < j < |ids| ==> ids[i] != ids[j]
  }

  lemma ApartOne(rest: seq<Id>, last: Id)
    ensures Apart(rest + [last]) <==> Apart(rest) && last !in rest
  {
    var ids := rest + [last];
    if Apart(ids) {
      forall i | 0 <= i < |rest|
        ensures rest[i] != last
      {
        assert ids[i] != ids[|rest|];
      }
      forall i, j | 0 <= i < j < |rest|
        ensures rest[i] != rest[j]
      {
        assert ids[i] != ids[j];
      }
    }
  }

  lemma UniqueCount(ids: seq<Id>)
    requires Unique(ids)
    ensures |Elems(ids)| == |ids|
  {
    ElemsCount(ids);
  }

  // ---- Indexing and rebuilding ----

  ghost predicate Indexes(items: seq<Item>, byId: map<Id, Item>) {
    && (forall i :: 0 <= i < |items| ==> items[i].id in byId && byId[items[i].id] == items[i])
    && (forall id :: id in byId ==> byId[id] in items && byId[id].id == id)
  }

  /** A table by identifier; fails on an empty, repeated or already taken one. */
  method IndexById(items: seq<Item>, taken: map<Id, Item>) returns (ok: bool, byId: map<Id, Item>)
    ensures ok <==> Unique(Ids(items)) && forall i :: 0 <= i < |items| ==> items[i].id !in taken
    ensures ok ==> Indexes(items, byId)
  {
    ok, byId := true, map[];
    for i := 0 to |items|
      invariant ok
      invariant (forall j ::
        0 <= j < i ==>
          && items[j].id != Empty && items[j].id !in taken
          && items[j].id in byId && byId[items[j].id] == items[j])
      invariant forall j, k :: 0 <= j < k < i ==> items[j].id != items[k].id
      invariant forall id :: id in byId ==> exists j :: 0 <= j < i && items[j].id == id && byId[id] == items[j]
    {
      var id := items[i].id;
      if id == Empty || id in byId || id in taken {
        assert Ids(items)[i] == id;
        return false, byId;
      }
      byId := byId[id := items[i]];
    }
  }

  /** The candidates in order, each from the accepted or else from the deferred table. */
  method Rebuild(ids: seq<Id>, accepted: map<Id, Item>, deferred: map<Id, Item>) returns (ok: bool, items: seq<Item>)
    ensures ok <==> forall i :: 0 <= i < |ids| ==> ids[i] in accepted || ids[i] in deferred
    ensures ok ==> |items| == |ids| && forall i ::
      0 <= i < |ids| ==> items[i] == if ids[i] in accepted then accepted[ids[i]] else deferred[ids[i]]
  {
    ok, items := true, [];
    for i := 0 to |ids|
      invariant ok && |items| == i
      invariant forall j ::
        0 <= j < i ==> (ids[j] in accepted || ids[j] in deferred) && items[j] == if ids[j] in accepted
          then accepted[ids[j]] else deferred[ids[j]]
    {
      if ids[i] in accepted {
        items := items + [accepted[ids[i]]];
      } else if ids[i] in deferred {
        items := items + [deferred[ids[i]]];
      } else {
        return false, items;
      }
    }
  }

  // ---- ACG ----

  /** Collects a list into a set; fails on an empty or repeated identifier. */
  method AbortSet(aborted: seq<Id>) returns (ok: bool, s: set<Id>)
    ensures ok <==> Unique(aborted)
    ensures ok ==> s == Elems(aborted)
  {
    ok, s := true, {};
    for i := 0 to |aborted|
      invariant ok && (forall id :: id in s <==> exists j :: 0 <= j < i && aborted[j] == id)
      invariant (forall j :: 0 <= j < i ==> aborted[j] != Empty)
      invariant forall j, k :: 0 <= j < k < i ==> aborted[j] != aborted[k]
    {
      if aborted[i] == Empty || aborted[i] in s {
        return false, s;
      }
      s := s + {aborted[i]};
    }
  }

  datatype Parts = Parts(accepted: seq<Item>, deferred: seq<Item>)

  /** `splitACGFirstPassCandidates`. */
  method SplitCandidates(items: seq<Item>, candidates: seq<Id>, aborted: seq<Id>) returns (r: Option<Parts>)
    ensures r.Some? <==> Ids(items) == candidates && Unique(aborted) && Elems(aborted) <= Elems(candidates)
    ensures r.Some?
      ==> r.value.accepted == Part(items, Elems(aborted), false, |items|)
          && r.value.deferred == Part(items, Elems(aborted), true, |items|)
  {
    if Ids(items) != candidates {
      return None;
    }
    var ok, outside := AbortSet(aborted);
    if !ok {
      return None;
    }
    var accepted, deferred: seq<Item>, seen: set<Id> := [], [], {};
    for i := 0 to |items|
      invariant accepted == Part(items, outside, false, i) && deferred == Part(items, outside, true, i)
      invariant forall id :: id in seen <==> id in outside && exists j :: 0 <= j < i && items[j].id == id
    {
      if items[i].id in outside {
        deferred := deferred + [items[i]];
        seen := seen + {items[i].id};
      } else {
        accepted := accepted + [items[i]];
      }
    }
    assert seen == outside * Elems(candidates);
    if |seen| != |outside| {
      assert !(outside <= Elems(candidates)) by {
        assert outside <= Elems(candidates) ==> seen == outside;
      }
      return None;
    }
    FullSubset(seen, outside);
    return Some(Parts(accepted, deferred));
  }

  /** A plan's waves and the serialization order it states. */
  datatype Layout = Layout(waves: seq<seq<Id>>, order: seq<Id>)

  function Concat(waves: seq<seq<Id>>, n: nat): seq<Id>
    requires n <= |waves|
  {
    if n == 0 then [] else Concat(waves, n - 1) + waves[n - 1]
  }

  /** The plan places every candidate in a wave or aborts it, never twice, and its serialization
      order is that of the waves. */
  ghost predicate Projects(candidates: seq<Id>, layout: Layout, aborted: seq<Id>) {
    && Concat(layout.waves, |layout.waves|) == layout.order
    && Apart(layout.order) && Elems(layout.order) <= Elems(candidates)
    && Apart(aborted) && Elems(aborted) <= Elems(candidates)
    && Elems(layout.order) !! Elems(aborted) && |layout.order| + |aborted| == |candidates|
  }

  /** `verifyPreverifiedLiteratureGraphProjection`. */
  method CheckProjection(candidates: seq<Id>, layout: Layout, aborted: seq<Id>) returns (ok: bool)
    ensures ok <==> Projects(candidates, layout, aborted)
  {
    var known := Elems(candidates);
    var flat := [];
    for c := 0 to |layout.waves|
      invariant flat == Concat(layout.waves, c)
    {
      flat := flat + layout.waves[c];
    }
    var first, seen := Mark(flat, known, {});
    if !first || flat != layout.order {
      return false;
    }
    var second, all := Mark(aborted, known, seen);
    if !second {
      return false;
    }
    ok := |all| == |candidates|;
  }

  /** Marks identifiers as seen; fails on an unknown one or one seen before. */
  method Mark(ids: seq<Id>, known: set<Id>, seen0: set<Id>) returns (ok: bool, seen: set<Id>)
    ensures ok <==> Apart(ids) && Elems(ids) <= known && Elems(ids) !! seen0
    ensures ok ==> seen == seen0 + Elems(ids) && |seen| == |seen0| + |ids|
  {
    ok, seen := true, seen0;
    for i := 0 to |ids|
      invariant ok && (forall id :: id in seen <==> id in seen0 || exists j :: 0 <= j < i && ids[j] == id)
      invariant |seen| == |seen0| + i
      invariant (forall j :: 0 <= j < i ==> ids[j] in known && ids[j] !in seen0)
      invariant forall j, k :: 0 <= j < k < i ==> ids[j] != ids[k]
    {
      if ids[i] !in known || ids[i] in seen {
        assert ids[i] in Elems(ids);
        return false, seen;
      }
      seen := seen + {ids[i]};
    }
  }

  /** A plan that projects its candidates has no repeated candidate. */
  lemma ProjectsExactly(candidates: seq<Id>, layout: Layout, aborted: seq<Id>)
    requires Projects(candidates, layout, aborted)
    ensures Apart(candidates) && Elems(candidates) == Elems(layout.order) + Elems(aborted)
  {
    ElemsCount(candidates);
    ElemsCount(layout.order);
    ElemsCount(aborted);
    FullSubset(Elems(layout.order) + Elems(aborted), Elems(candidates));
  }

  /** What a validator may conclude from a wire it accepts: accepted and deferred are disjoint
      and together exactly the candidates, and `full` is the candidate list. */
  ghost predicate AcgSound(block: seq<Item>, candidates: seq<Id>, aborted: seq<Id>, deferred: seq<Item>,
      full: seq<Item>) {
    && Unique(candidates) && Ids(full) == candidates && Ids(deferred) == aborted
    && Elems(Ids(block)) !! Elems(aborted) && Elems(Ids(block)) + Elems(aborted) == Elems(candidates)
    && block == Part(full, Elems(aborted), false, |full|) && forall d :: d in deferred ==> d in full
  }

  /** A wire made by splitting `items`. */
  ghost predicate AcgHonest(items: seq<Item>, block: seq<Item>, candidates: seq<Id>, aborted: seq<Id>,
      deferred: seq<Item>, layout: Layout) {
    && Ids(items) == candidates && Unique(candidates) && Projects(candidates, layout, aborted)
    && Ids(deferred) == aborted
    && block == Part(items, Elems(aborted), false, |items|) && deferred == Part(items, Elems(aborted), true, |items|)
  }

  /** The checks of `verifyACGConsensusPlan` before anything is recomputed. */
  ghost predicate AcgPasses(block: seq<Item>, candidates: seq<Id>, aborted: seq<Id>, deferred: seq<Item>,
      layout: Layout) {
    && Ids(deferred) == aborted && Unique(aborted) && Ids(block) == Without(candidates, Elems(aborted), |candidates|)
    && Unique(Ids(block)) && |block| + |deferred| == |candidates| && Projects(candidates, layout, aborted)
  }

  method VerifyAcg(block: seq<Item>, candidates: seq<Id>, aborted: seq<Id>, deferred: seq<Item>, layout: Layout)
      returns (r: Option<seq<Item>>)
    ensures r.Some? <==> AcgPasses(block, candidates, aborted, deferred, layout)
    ensures r.Some? ==> AcgSound(block, candidates, aborted, deferred, r.value)
    ensures forall items :: AcgHonest(items, block, candidates, aborted, deferred, layout) ==> r == Some(items)
  {
    forall items | AcgHonest(items, block, candidates, aborted, deferred, layout)
      ensures AcgPasses(block, candidates, aborted, deferred, layout)
    {
      HonestPasses(items, block, candidates, aborted, deferred, layout);
    }
    hide AcgHonest; hide Projects; hide AcgSound;
    if Ids(deferred) != aborted {
      return None;
    }
    var ok, outside := AbortSet(aborted);
    if !ok {
      return None;
    }
    var expected := [];
    for i := 0 to |candidates|
      invariant expected == Without(candidates, outside, i)
    {
      if candidates[i] !in outside {
        expected := expected + [candidates[i]];
      }
    }
    if Ids(block) != expected {
      return None;
    }
    var okA, accepted := IndexById(block, map[]);
    var okD, later := IndexById(deferred, map[]);
    if !okA || !okD {
      return None;
    }
    IndexCount(block, accepted);
    IndexCount(deferred, later);
    NoOverlap(block, candidates, aborted, deferred, accepted, later);
    for i := 0 to |candidates|
    {
      if candidates[i] in accepted && candidates[i] in later {
        return None;
      }
    }
    var okF, full := Rebuild(candidates, accepted, later);
    if !okF || |accepted| + |later| != |full| {
      return None;
    }
    var projected := CheckProjection(candidates, layout, aborted);
    if !projected {
      return None;
    }
    PassedIsSound(block, candidates, aborted, deferred, layout, accepted, later, full);
    return Some(full);
  }

  lemma IndexCount(items: seq<Item>, byId: map<Id, Item>)
    requires Indexes(items, byId) && Unique(Ids(items))
    ensures |byId| == |items| && byId.Keys == Elems(Ids(items))
  {
    forall id | id in byId
      ensures id in Elems(Ids(items))
    {
      var i :| 0 <= i < |items| && items[i] == byId[id];
      assert Ids(items)[i] == id;
    }
    assert byId.Keys == Elems(Ids(items));
    ElemsCount(Ids(items));
  }

  lemma NoOverlap(block: seq<Item>, candidates: seq<Id>, aborted: seq<Id>, deferred: seq<Item>,
      accepted: map<Id, Item>, later: map<Id, Item>)
    requires accepted.Keys == Elems(Ids(block)) && later.Keys == Elems(Ids(deferred)) && Ids(deferred) == aborted
    requires Ids(block) == Without(candidates, Elems(aborted), |candidates|)
    ensures forall id :: id in accepted ==> id !in later
    ensures forall i :: 0 <= i < |candidates| ==> candidates[i] in accepted || candidates[i] in later
  {
    forall id
      ensures id in Without(candidates, Elems(aborted), |candidates|) <==> id !in Elems(aborted) && id in candidates
    {
      WithoutHas(candidates, Elems(aborted), |candidates|, id);
    }
  }

  lemma HonestPasses(items: seq<Item>, block: seq<Item>, candidates: seq<Id>, aborted: seq<Id>, deferred: seq<Item>,
      layout: Layout)
    requires AcgHonest(items, block, candidates, aborted, deferred, layout)
    ensures AcgPasses(block, candidates, aborted, deferred, layout)
  {
    PartIds(items, Elems(aborted), |items|);
    PartCount(items, Elems(aborted), |items|);
    WithoutUnique(candidates, Elems(aborted), |candidates|);
    forall i | 0 <= i < |aborted|
      ensures aborted[i] != Empty
    {
      assert aborted[i] in Elems(aborted);
    }
  }

  lemma {:induction false} PartCount(items: seq<Item>, s: set<Id>, n: nat)
    requires n <= |items|
    ensures |Part(items, s, false, n)| + |Part(items, s, true, n)| == n
  {
    if n > 0 {
      PartCount(items, s, n - 1);
    }
  }

  lemma {:induction false} WithoutUnique(ids: seq<Id>, s: set<Id>, n: nat)
    requires n <= |ids| && Unique(ids)
    ensures Unique(Without(ids, s, n))
  {
    if n > 0 {
      WithoutUnique(ids, s, n - 1);
      WithoutHas(ids, s, n - 1, ids[n - 1]);
    }
  }

  /** `full` takes every candidate from the table it is in. */
  ghost predicate Filled(candidates: seq<Id>, accepted: map<Id, Item>, later: map<Id, Item>, full: seq<Item>) {
    && |full| == |candidates|
    && forall i :: 0 <= i < |candidates| ==>
      && (candidates[i] in accepted || candidates[i] in later)
      && full[i] == if candidates[i] in accepted then accepted[candidates[i]] else later[candidates[i]]
  }

  lemma PassedIsSound(block: seq<Item>, candidates: seq<Id>, aborted: seq<Id>, deferred: seq<Item>, layout: Layout,
      accepted: map<Id, Item>, later: map<Id, Item>, full: seq<Item>)
    requires AcgPasses(block, candidates, aborted, deferred, layout) && Indexes(block, accepted)
    requires Indexes(deferred, later) && Filled(candidates, accepted, later, full)
    requires accepted.Keys == Elems(Ids(block)) && later.Keys == Elems(aborted)
    requires forall id :: id in accepted ==> id !in later
    ensures AcgSound(block, candidates, aborted, deferred, full)
    ensures forall items :: AcgHonest(items, block, candidates, aborted, deferred, layout) ==> items == full
  {
    ProjectsExactly(candidates, layout, aborted);
    CandidatesUnique(block, candidates, aborted, accepted, later);
    FullIds(candidates, accepted, later, full, block, deferred);
    AllCandidates(block, candidates, aborted, accepted, later);
    BlockIsPart(block, candidates, aborted, accepted, later, full);
    forall d | d in deferred
      ensures d in full
    {
      DeferredInFull(candidates, aborted, deferred, accepted, later, full, d);
    }
    forall items | AcgHonest(items, block, candidates, aborted, deferred, layout)
      ensures items == full
    {
      HonestIsFull(items, block, candidates, aborted, deferred, layout, accepted, later, full);
    }
  }

  lemma CandidatesUnique(block: seq<Item>, candidates: seq<Id>, aborted: seq<Id>, accepted: map<Id, Item>,
      later: map<Id, Item>)
    requires Apart(candidates) && Unique(Ids(block)) && Unique(aborted) && accepted.Keys == Elems(Ids(block))
    requires later.Keys == Elems(aborted)
    requires forall i :: 0 <= i < |candidates| ==> candidates[i] in accepted || candidates[i] in later
    ensures Unique(candidates)
  {
    forall i | 0 <= i < |candidates|
      ensures candidates[i] != Empty
    {
      assert candidates[i] in accepted ==> candidates[i] in Elems(Ids(block));
      assert candidates[i] in later ==> candidates[i] in Elems(aborted);
    }
  }

  lemma FullIds(candidates: seq<Id>, accepted: map<Id, Item>, later: map<Id, Item>, full: seq<Item>, block: seq<Item>,
      deferred: seq<Item>)
    requires Indexes(block, accepted) && Indexes(deferred, later) && Filled(candidates, accepted, later, full)
    ensures Ids(full) == candidates
  {
  }

  lemma AllCandidates(block: seq<Item>, candidates: seq<Id>, aborted: seq<Id>, accepted: map<Id, Item>,
      later: map<Id, Item>)
    requires accepted.Keys == Elems(Ids(block)) && later.Keys == Elems(aborted)
    requires (forall id :: id in accepted ==> id !in later) && Elems(aborted) <= Elems(candidates)
    requires Ids(block) == Without(candidates, Elems(aborted), |candidates|)
    requires forall i :: 0 <= i < |candidates| ==> candidates[i] in accepted || candidates[i] in later
    ensures Elems(Ids(block)) !! Elems(aborted) && Elems(Ids(block)) + Elems(aborted) == Elems(candidates)
  {
    forall id | id in Elems(Ids(block))
      ensures id in Elems(candidates)
    {
      WithoutHas(candidates, Elems(aborted), |candidates|, id);
    }
    forall id | id in Elems(candidates)
      ensures id in Elems(Ids(block)) + Elems(aborted)
    {
      var i :| 0 <= i < |candidates| && candidates[i] == id;
    }
  }

  lemma BlockIsPart(block: seq<Item>, candidates: seq<Id>, aborted: seq<Id>, accepted: map<Id, Item>,
      later: map<Id, Item>, full: seq<Item>)
    requires Indexes(block, accepted) && later.Keys == Elems(aborted) && Filled(candidates, accepted, later, full)
    requires Ids(full) == candidates
    requires Ids(block) == Without(candidates, Elems(aborted), |candidates|)
    ensures block == Part(full, Elems(aborted), false, |full|)
  {
    var s := Elems(aborted);
    var part := Part(full, s, false, |full|);
    PartIds(full, s, |full|);
    assert Ids(part) == Ids(block);
    forall k | 0 <= k < |block|
      ensures part[k] == block[k]
    {
      PartHas(full, s, false, |full|, part[k]);
      var i :| 0 <= i < |full| && full[i] == part[k] && part[k].id !in s;
      assert Ids(part)[k] == block[k].id;
      assert candidates[i] == full[i].id && candidates[i] !in later;
    }
  }

  lemma DeferredInFull(candidates: seq<Id>, aborted: seq<Id>, deferred: seq<Item>, accepted: map<Id, Item>,
      later: map<Id, Item>, full: seq<Item>, d: Item)
    requires Indexes(deferred, later) && Filled(candidates, accepted, later, full) && d in deferred
    requires Ids(deferred) == aborted
    requires Elems(aborted) <= Elems(candidates) && later.Keys == Elems(aborted)
    requires forall id :: id in accepted ==> id !in later
    ensures d in full
  {
    var k :| 0 <= k < |deferred| && deferred[k] == d;
    assert aborted[k] == d.id && d.id in Elems(candidates);
    var i :| 0 <= i < |candidates| && candidates[i] == d.id;
    assert full[i] == d;
  }

  lemma HonestIsFull(items: seq<Item>, block: seq<Item>, candidates: seq<Id>, aborted: seq<Id>, deferred: seq<Item>,
      layout: Layout, accepted: map<Id, Item>, later: map<Id, Item>, full: seq<Item>)
    requires AcgHonest(items, block, candidates, aborted, deferred, layout) && Indexes(block, accepted)
    requires Indexes(deferred, later) && Filled(candidates, accepted, later, full)
    ensures items == full
  {
    hide Projects; hide Part;
    forall i | 0 <= i < |candidates|
      ensures items[i] == full[i]
    {
      assert full[i].id == candidates[i] && (full[i] in block || full[i] in deferred);
      SameItem(items, candidates, Elems(aborted), full[i], i);
    }
  }

  lemma SameItem(items: seq<Item>, candidates: seq<Id>, s: set<Id>, x: Item, i: nat)
    requires Ids(items) == candidates && Unique(candidates) && i < |items| && x.id == candidates[i]
    requires x in Part(items, s, false, |items|) || x in Part(items, s, true, |items|)
    ensures items[i] == x
  {
    PartHas(items, s, false, |items|, x);
    PartHas(items, s, true, |items|, x);
    var j :| 0 <= j < |items| && items[j] == x;
    assert candidates[j] == candidates[i];
  }

  /** Splitting and verifying gives the candidates back exactly if their identifiers are
      usable, the plan covers them, and the abort list is in candidate order. */
  method SplitThenVerify(items: seq<Item>, candidates: seq<Id>, aborted: seq<Id>, layout: Layout)
      returns (split: Option<Parts>, back: Option<seq<Item>>)
    ensures split.Some?
      ==> (back == Some(items)
        <==> Unique(candidates) && Projects(candidates, layout, aborted) && Ids(split.value.deferred) == aborted)
    ensures split.Some? && back.Some? ==> back == Some(items)
  {
    split := SplitCandidates(items, candidates, aborted);
    back := None;
    if split.Some? {
      var block, deferred := split.value.accepted, split.value.deferred;
      back := VerifyAcg(block, candidates, aborted, deferred, layout);
      hide Projects;
      assert back.Some? ==> AcgHonest(items, block, candidates, aborted, deferred, layout);
      assert Unique(candidates) && Projects(candidates, layout, aborted) && Ids(deferred) == aborted
        ==> AcgHonest(items, block, candidates, aborted, deferred, layout);
    }
  }

  // ---- Aria ----

  function Logicals(items: seq<Item>): (r: seq<Token>)
    ensures |r| == |items| && forall i :: 0 <= i < |items| ==> r[i] == items[i].logical
  {
    seq(|items|, i requires 0 <= i < |items| => items[i].logical)
  }

  /** The compact evidence. A payload digest is identified with the payload; `reasons` are the
      identifiers with a deferral reason; `digests` says that the result digests are present. */
  datatype Wire = Wire(count: nat, limit: int, candidates: seq<Id>, candidateLogicals: seq<Token>, payload: seq<Item>,
      selected: seq<Id>, selectedLogicals: seq<Token>, deferred: seq<Id>, deferredLogicals: seq<Token>,
      deferredItems: seq<Item>, reasons: set<Id>, digests: bool)

  ghost predicate Sizes(w: Wire, items: seq<Item>) {
    && w.count == |items| == |w.candidates| == |w.candidateLogicals| && |w.selected| == |w.selectedLogicals|
      && |w.deferred| == |w.deferredLogicals|
    && |w.selected| + |w.deferred| == w.count && 1 <= w.limit <= w.count
  }

  /** The block body is the selection of the candidates. */
  ghost predicate Selects(items: seq<Item>, selected: seq<Id>, block: seq<Item>) {
    |block| == |selected| && forall k :: 0 <= k < |selected| ==> block[k].id == selected[k] && block[k] in items
  }

  ghost predicate Partition(w: Wire) {
    && Unique(w.selected) && Unique(w.deferred) && Elems(w.selected) !! Elems(w.deferred)
    && Elems(w.deferred) <= w.reasons && Elems(w.candidates) <= Elems(w.selected) + Elems(w.deferred)
  }

  /** Everything `validateAriaCandidateSelectionEvidence` checks. */
  ghost predicate AriaValid(block: seq<Item>, blockIds: seq<Id>, sameBlock: bool, w: Wire, items: seq<Item>) {
    && sameBlock && Sizes(w, items) && Ids(items) == w.candidates && Logicals(items) == w.candidateLogicals
      && Unique(w.candidates)
    && Selects(items, w.selected, block) && w.selected == blockIds && items == w.payload && Partition(w) && w.digests
  }

  method ValidateAria(block: seq<Item>, blockIds: seq<Id>, sameBlock: bool, w: Wire, items: seq<Item>)
      returns (ok: bool)
    ensures ok <==> AriaValid(block, blockIds, sameBlock, w, items)
  {
    hide Partition; hide Selects; hide Indexes;
    if !sameBlock || w.count != |items| || w.count != |w.candidates| || w.count != |w.candidateLogicals| {
      return false;
    }
    if |w.selected| != |w.selectedLogicals|
      || |w.deferred| != |w.deferredLogicals| || |w.selected| + |w.deferred| != w.count {
      return false;
    }
    if w.limit < 1 || w.limit > w.count || Ids(items) != w.candidates || Logicals(items) != w.candidateLogicals {
      return false;
    }
    var unique, byId := IndexById(items, map[]);
    if !unique {
      return false;
    }
    var picked := PickSelected(items, byId, w.selected, block);
    if !picked || w.selected != blockIds || items != w.payload {
      return false;
    }
    var partition := CheckPartition(w);
    ok := partition && w.digests;
  }

  method PickSelected(items: seq<Item>, byId: map<Id, Item>, selected: seq<Id>, block: seq<Item>) returns (ok: bool)
    requires Indexes(items, byId) && Unique(Ids(items))
    ensures ok <==> Selects(items, selected, block)
  {
    var payloads := [];
    for k := 0 to |selected|
      invariant |payloads| == k && forall j :: 0 <= j < k ==> selected[j] in byId && payloads[j] == byId[selected[j]]
    {
      if selected[k] !in byId {
        assert forall x :: x in items ==> x.id != selected[k];
        return false;
      }
      payloads := payloads + [byId[selected[k]]];
    }
    if Selects(items, selected, block) {
      forall k | 0 <= k < |selected|
        ensures block[k] == payloads[k]
      {
        assert block[k] in items;
      }
    }
    ok := payloads == block;
  }

  /** The two lists are disjoint, deferrals have a reason, and no candidate is missing. */
  method CheckPartition(w: Wire) returns (ok: bool)
    requires |w.selected| + |w.deferred| == |w.candidates| == w.count && Unique(w.candidates)
    ensures ok <==> Partition(w)
  {
    var okS, chosen := AbortSet(w.selected);
    var okD, later := AbortSet(w.deferred);
    if !okS || !okD || !(chosen !! later) || !(later <= w.reasons) {
      return false;
    }
    ok := Elems(w.candidates) <= chosen + later && |chosen + later| == w.count;
    ElemsCount(w.selected);
    ElemsCount(w.deferred);
    assert chosen !! later;
    assert |chosen + later| == |chosen| + |later|;
  }

  /** `decodeAriaCandidateSelectionEvidence` for the compact wire. */
  method DecodeAria(block: seq<Item>, blockIds: seq<Id>, sameBlock: bool, w: Wire) returns (r: Option<seq<Item>>)
    ensures r.Some? ==> AriaSound(block, w, r.value)
    ensures forall items :: r == Some(items) <==> AriaDecodes(items, block, blockIds, sameBlock, w)
    ensures forall items :: AriaHonest(items, block, blockIds, sameBlock, w) ==> r == Some(items)
  {
    hide AriaValid; hide AriaSound; hide AriaHonest; hide Unique; hide Indexes; hide AriaDecodes;
    forall items | AriaHonest(items, block, blockIds, sameBlock, w)
      ensures AriaDecodes(items, block, blockIds, sameBlock, w)
    {
      HonestDecodes(items, block, blockIds, sameBlock, w);
    }
    forall items | AriaDecodes(items, block, blockIds, sameBlock, w)
      ensures AriaPasses(block, w) && AriaValid(block, blockIds, sameBlock, w, items)
    {
      DecodesPasses(items, block, blockIds, sameBlock, w);
    }
    if Ids(w.deferredItems) != w.deferred || Logicals(w.deferredItems) != w.deferredLogicals {
      return None;
    }
    var okA, accepted := IndexById(block, map[]);
    if !okA {
      return None;
    }
    var okD, later := IndexById(w.deferredItems, accepted);
    TakenApart(block, w.deferredItems, accepted);
    if !okD {
      return None;
    }
    var okF, full := Rebuild(w.candidates, accepted, later);
    forall items | AriaDecodes(items, block, blockIds, sameBlock, w)
      ensures okF && items == full
    {
      DecodesRebuilds(items, block, blockIds, sameBlock, w, accepted, later, full, okF);
    }
    if !okF {
      return None;
    }
    var valid := ValidateAria(block, blockIds, sameBlock, w, full);
    if !valid {
      return None;
    }
    ValidIsSound(block, blockIds, sameBlock, w, full);
    RebuiltDecodes(full, block, blockIds, sameBlock, w, accepted, later);
    return Some(full);
  }

  /** A table of the block that has none of the deferred identifiers. */
  lemma TakenApart(block: seq<Item>, deferred: seq<Item>, accepted: map<Id, Item>)
    requires Indexes(block, accepted)
    ensures (forall d :: 0 <= d < |deferred| ==> deferred[d].id !in accepted) <==> IdsApart(block, deferred)
  {
    if forall d :: 0 <= d < |deferred| ==> deferred[d].id !in accepted {
      forall d, b | 0 <= d < |deferred| && 0 <= b < |block|
        ensures deferred[d].id != block[b].id
      {
        assert block[b].id in accepted;
      }
    } else {
      var d :| 0 <= d < |deferred| && deferred[d].id in accepted;
      assert accepted[deferred[d].id] in block;
    }
  }

  ghost predicate IdsApart(block: seq<Item>, deferred: seq<Item>) {
    forall d, b :: 0 <= d < |deferred| && 0 <= b < |block| ==> deferred[d].id != block[b].id
  }

  /** The wires that decode to `items`: everything validated, the deferred payloads listed as they
      are, apart from the block body, and among the candidates. */
  ghost predicate AriaDecodes(items: seq<Item>, block: seq<Item>, blockIds: seq<Id>, sameBlock: bool, w: Wire) {
    && AriaPasses(block, w) && AriaValid(block, blockIds, sameBlock, w, items)
    && forall k :: 0 <= k < |w.deferredItems| ==> w.deferredItems[k] in items
  }

  lemma DecodesPasses(items: seq<Item>, block: seq<Item>, blockIds: seq<Id>, sameBlock: bool, w: Wire)
    requires AriaDecodes(items, block, blockIds, sameBlock, w)
    ensures AriaPasses(block, w) && AriaValid(block, blockIds, sameBlock, w, items)
  {
  }

  lemma HonestDecodes(items: seq<Item>, block: seq<Item>, blockIds: seq<Id>, sameBlock: bool, w: Wire)
    requires AriaHonest(items, block, blockIds, sameBlock, w)
    ensures AriaDecodes(items, block, blockIds, sameBlock, w)
  {
    HonestAria(items, block, blockIds, sameBlock, w);
  }

  /** A deferred payload is what the rebuilt list has for its identifier. */
  lemma RebuiltDecodes(items: seq<Item>, block: seq<Item>, blockIds: seq<Id>, sameBlock: bool, w: Wire,
      accepted: map<Id, Item>, later: map<Id, Item>)
    requires AriaPasses(block, w) && AriaValid(block, blockIds, sameBlock, w, items) && AriaSound(block, w, items)
    requires Indexes(block, accepted) && Indexes(w.deferredItems, later)
    requires (forall i :: 0 <= i < |w.candidates| ==> w.candidates[i] in accepted || w.candidates[i] in later)
    requires Filled(w.candidates, accepted, later, items)
    ensures AriaDecodes(items, block, blockIds, sameBlock, w)
  {
    TakenApart(block, w.deferredItems, accepted);
    forall k | 0 <= k < |w.deferredItems|
      ensures w.deferredItems[k] in items
    {
      var id := w.deferredItems[k].id;
      assert Ids(w.deferredItems)[k] == id && id in Elems(w.deferred);
      assert id in Elems(w.candidates);
      var i :| 0 <= i < |w.candidates| && w.candidates[i] == id;
      assert id !in accepted;
      assert items[i] == later[id] == w.deferredItems[k];
    }
  }

  ghost predicate AriaPasses(block: seq<Item>, w: Wire) {
    && Ids(w.deferredItems) == w.deferred && Logicals(w.deferredItems) == w.deferredLogicals && Unique(Ids(block))
      && Unique(Ids(w.deferredItems))
    && IdsApart(block, w.deferredItems)
  }

  /** What a validator may conclude: selected and deferred are disjoint and together exactly
      the candidates, the block body is the selected candidates, and `items` is the
      candidate list the digest commits to. */
  ghost predicate AriaSound(block: seq<Item>, w: Wire, items: seq<Item>) {
    && Unique(w.candidates) && Ids(items) == w.candidates && items == w.payload
    && Elems(w.selected) !! Elems(w.deferred) && Elems(w.selected) + Elems(w.deferred) == Elems(w.candidates)
    && Ids(block) == w.selected && forall k :: 0 <= k < |block| ==> block[k] in items
  }

  /** The evidence `BuildCandidate` attaches for candidates split into `block` and deferred. */
  ghost predicate AriaHonest(items: seq<Item>, block: seq<Item>, blockIds: seq<Id>, sameBlock: bool, w: Wire) {
    && sameBlock && Unique(Ids(items)) && w.candidates == Ids(items) && w.candidateLogicals == Logicals(items)
      && w.payload == items && w.count == |items|
    && w.selected == Ids(block) == blockIds && w.selectedLogicals == Logicals(block)
      && w.deferred == Ids(w.deferredItems) && w.deferredLogicals == Logicals(w.deferredItems)
    && |block| + |w.deferredItems| == |items| && (forall k :: 0 <= k < |block| ==> block[k] in items)
      && (forall k :: 0 <= k < |w.deferredItems| ==> w.deferredItems[k] in items)
    && Unique(w.selected) && Unique(w.deferred) && Elems(w.selected) !! Elems(w.deferred)
      && Elems(w.deferred) <= w.reasons && 1 <= w.limit <= w.count && w.digests
  }

  lemma ValidIsSound(block: seq<Item>, blockIds: seq<Id>, sameBlock: bool, w: Wire, items: seq<Item>)
    requires AriaValid(block, blockIds, sameBlock, w, items)
    ensures AriaSound(block, w, items)
  {
    ElemsCount(w.candidates);
    ElemsCount(w.selected);
    ElemsCount(w.deferred);
    assert |Elems(w.selected) + Elems(w.deferred)| == |Elems(w.selected)| + |Elems(w.deferred)|;
    FullSubset(Elems(w.candidates), Elems(w.selected) + Elems(w.deferred));
  }

  lemma HonestAria(items: seq<Item>, block: seq<Item>, blockIds: seq<Id>, sameBlock: bool, w: Wire)
    requires AriaHonest(items, block, blockIds, sameBlock, w)
    ensures AriaPasses(block, w) && AriaValid(block, blockIds, sameBlock, w, items)
  {
    hide Unique;
    HonestCovers(items, block, w);
    forall d, b | 0 <= d < |w.deferredItems| && 0 <= b < |block|
      ensures w.deferredItems[d].id != block[b].id
    {
      assert Ids(w.deferredItems)[d] in Elems(w.deferred) && Ids(block)[b] in Elems(w.selected);
    }
  }

  lemma HonestCovers(items: seq<Item>, block: seq<Item>, w: Wire)
    requires Unique(w.candidates) && Unique(w.selected) && Unique(w.deferred) && Elems(w.selected) !! Elems(w.deferred)
    requires w.candidates == Ids(items) && w.selected == Ids(block) && w.deferred == Ids(w.deferredItems)
    requires |block| + |w.deferredItems| == |items|
    requires (forall k :: 0 <= k < |block| ==> block[k] in items)
    requires (forall k :: 0 <= k < |w.deferredItems| ==> w.deferredItems[k] in items)
    ensures Elems(w.selected) + Elems(w.deferred) == Elems(w.candidates)
  {
    hide Unique;
    UniqueCount(w.candidates);
    UniqueCount(w.selected);
    UniqueCount(w.deferred);
    forall id | id in Elems(w.selected) + Elems(w.deferred)
      ensures id in Elems(w.candidates)
    {
      IdOf(items, block, w.deferredItems, id);
    }
    assert |Elems(w.selected) + Elems(w.deferred)| == |Elems(w.selected)| + |Elems(w.deferred)|;
    FullSubset(Elems(w.selected) + Elems(w.deferred), Elems(w.candidates));
  }

  lemma IdOf(items: seq<Item>, block: seq<Item>, deferred: seq<Item>, id: Id)
    requires (forall k :: 0 <= k < |block| ==> block[k] in items)
    requires (forall k :: 0 <= k < |deferred| ==> deferred[k] in items)
    requires id in Ids(block) || id in Ids(deferred)
    ensures id in Ids(items)
  {
    var x: Item;
    if id in Ids(block) {
      var k :| 0 <= k < |block| && Ids(block)[k] == id;
      x := block[k];
    } else {
      var k :| 0 <= k < |deferred| && Ids(deferred)[k] == id;
      x := deferred[k];
    }
    var i :| 0 <= i < |items| && items[i] == x;
    assert Ids(items)[i] == id;
  }

  lemma DecodesRebuilds(items: seq<Item>, block: seq<Item>, blockIds: seq<Id>, sameBlock: bool, w: Wire,
      accepted: map<Id, Item>, later: map<Id, Item>, full: seq<Item>, ok: bool)
    requires AriaDecodes(items, block, blockIds, sameBlock, w) && Indexes(block, accepted)
    requires Indexes(w.deferredItems, later)
    requires ok <==> forall i :: 0 <= i < |w.candidates| ==> w.candidates[i] in accepted || w.candidates[i] in later
    requires ok ==> Filled(w.candidates, accepted, later, full)
    ensures ok && items == full
  {
    ValidIsSound(block, blockIds, sameBlock, w, items);
    forall i | 0 <= i < |w.candidates|
      ensures w.candidates[i] in accepted || w.candidates[i] in later
    {
      assert w.candidates[i] in Elems(w.selected) + Elems(w.deferred);
    }
    forall i | 0 <= i < |items|
      ensures items[i] == full[i]
    {
      assert full[i] in items && full[i].id == items[i].id;
      var j :| 0 <= j < |items| && items[j] == full[i];
      assert Ids(items)[j] == Ids(items)[i];
    }
  }
}
