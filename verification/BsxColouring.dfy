/** BSX planning: the conflict graph of a block, its DSATUR colouring, and the waves of one
    colour each. */
module BsxColouring {

  import opened Basics
  import opened Transactions
  import opened Digraphs

  // ---- Conflicts ----

  /** Declared sets overlap in a key that one of the two writes. */
  predicate Conflicts(a: Tx, b: Tx) {
    DeclaredWrites(a) * DeclaredReads(b) != {}
      || DeclaredReads(a) * DeclaredWrites(b) != {} || DeclaredWrites(a) * DeclaredWrites(b) != {}
  }

  /** One writes a key that the other declares at all. */
  ghost predicate Disturbs(a: Tx, b: Tx) {
    exists k :: k in DeclaredKeys(a) && k in DeclaredKeys(b) && (k in DeclaredWrites(a) || k in DeclaredWrites(b))
  }

  lemma ConflictsDisturb(a: Tx, b: Tx)
    ensures Conflicts(a, b) <==> Disturbs(a, b)
  {
    hide DeclaredReads; hide DeclaredWrites;
    if Conflicts(a, b) {
      var k :| k in DeclaredWrites(a) * DeclaredReads(b) || k in DeclaredReads(a) * DeclaredWrites(b)
        || k in DeclaredWrites(a) * DeclaredWrites(b);
      assert k in DeclaredKeys(a) && k in DeclaredKeys(b);
    }
    if Disturbs(a, b) {
      var k :| k in DeclaredKeys(a) && k in DeclaredKeys(b) && (k in DeclaredWrites(a) || k in DeclaredWrites(b));
      assert k in DeclaredWrites(a) * DeclaredReads(b) || k in DeclaredReads(a) * DeclaredWrites(b)
        || k in DeclaredWrites(a) * DeclaredWrites(b);
    }
  }

  type Graph = seq<set<nat>>

  /** Neighbours are in range and mutual, and nobody neighbours itself. */
  ghost predicate Symmetric(g: Graph) {
    forall u, v :: 0 <= u < |g| && v in g[u] ==> v < |g| && v != u && u in g[v]
  }

  /** Each edge once, from the earlier to the later transaction. */
  ghost function EdgeSet(g: Graph): set<(nat, nat)> {
    set u: nat, v | u < |g| && v in g[u] && u < v :: (u, v)
  }

  lemma CountOne(g: Graph, i: nat, j: nat)
    requires i < j < |g| && j !in g[i]
    ensures |EdgeSet(g[i := g[i] + {j}][j := g[j] + {i}])| == |EdgeSet(g)| + 1
  {
    var g' := g[i := g[i] + {j}][j := g[j] + {i}];
    assert EdgeSet(g') == EdgeSet(g) + {(i, j)};
  }

  lemma CountNone(g: Graph)
    requires forall u :: 0 <= u < |g| ==> g[u] == {}
    ensures EdgeSet(g) == {}
  {
  }

  /** Compares every pair once. */
  method ConflictGraph(block: seq<Tx>) returns (g: Graph, edges: nat)
    ensures |g| == |block| && Symmetric(g)
    ensures forall u, v ::
      0 <= u < |block| && 0 <= v < |block| ==> (v in g[u] <==> u != v && Conflicts(block[u], block[v]))
    ensures forall u, v ::
      0 <= u < |block| && 0 <= v < |block| ==> (v in g[u] <==> u != v && Disturbs(block[u], block[v]))
    ensures edges == |EdgeSet(g)|
  {
    g, edges := seq(|block|, i => {}), 0;
    CountNone(g);
    assert Linked(block, g, 0, 1);
    hide Conflicts; hide Linked; hide EdgeSet; hide Disturbs; hide Symmetric;
    for i := 0 to |block|
      invariant |g| == |block| && Linked(block, g, i, i + 1) && edges == |EdgeSet(g)|
    {
      for j := i + 1 to |block|
        invariant |g| == |block| && Linked(block, g, i, j) && edges == |EdgeSet(g)|
      {
        LinkOne(block, g, i, j);
        if Conflicts(block[i], block[j]) {
          CountOne(g, i, j);
          g := g[i := g[i] + {j}];
          g := g[j := g[j] + {i}];
          edges := edges + 1;
        }
      }
      NextRow(block, g, i);
    }
    AllLinked(block, g);
    LinkedDisturb(block, g);
  }

  lemma LinkedDisturb(block: seq<Tx>, g: Graph)
    requires |g| == |block|
    requires forall u, v ::
      0 <= u < |block| && 0 <= v < |block| ==> (v in g[u] <==> u != v && Conflicts(block[u], block[v]))
    ensures forall u, v ::
      0 <= u < |block| && 0 <= v < |block| ==> (v in g[u] <==> u != v && Disturbs(block[u], block[v]))
  {
    hide Conflicts; hide Disturbs;
    forall u, v | 0 <= u < |block| && 0 <= v < |block|
      ensures v in g[u] <==> u != v && Disturbs(block[u], block[v])
    {
      ConflictsDisturb(block[u], block[v]);
    }
  }

  lemma LinkOne(block: seq<Tx>, g: Graph, i: nat, j: nat)
    requires |g| == |block| && i < j < |block| && Linked(block, g, i, j)
    ensures if Conflicts(block[i], block[j]) then Linked(block, g[i := g[i] + {j}][j := g[j] + {i}], i,
        j + 1) else Linked(block, g, i, j + 1)
    ensures j !in g[i]
  {
    assert LinkedAt(block, g, i, j, i, j);
    ConflictsMutual(block[i], block[j]);
    hide Conflicts;
    var g' := if Conflicts(block[i], block[j]) then g[i := g[i] + {j}][j := g[j] + {i}] else g;
    var next := j + 1;
    forall u: nat, v: nat | u < |block| && v < |block|
      ensures LinkedAt(block, g', u, v, i, next)
    {
      assert LinkedAt(block, g, u, v, i, j);
      assert Compared(u, v, i, next) <==> Compared(u, v, i, j) || (u == i && v == j);
      assert Compared(v, u, i, next) <==> Compared(v, u, i, j) || (v == i && u == j);
    }
  }

  lemma NextRow(block: seq<Tx>, g: Graph, i: nat)
    requires |g| == |block| && i < |block| && Linked(block, g, i, |block|)
    ensures Linked(block, g, i + 1, i + 2)
  {
    hide Conflicts;
    var row, next := i + 1, i + 2;
    forall u: nat, v: nat | u < |block| && v < |block|
      ensures LinkedAt(block, g, u, v, row, next)
    {
      assert LinkedAt(block, g, u, v, i, |block|);
    }
  }

  lemma AllLinked(block: seq<Tx>, g: Graph)
    requires |g| == |block| && Linked(block, g, |block|, |block| + 1)
    ensures Symmetric(g)
    ensures forall u, v ::
      0 <= u < |block| && 0 <= v < |block| ==> (v in g[u] <==> u != v && Conflicts(block[u], block[v]))
  {
    forall u: nat, v: nat | u < |block| && v < |block|
      ensures v in g[u] <==> u != v && Conflicts(block[u], block[v])
    {
      assert LinkedAt(block, g, u, v, |block|, |block| + 1);
    }
    hide Linked;
    forall u, v | 0 <= u < |g| && v in g[u]
      ensures v < |g| && v != u && u in g[v]
    {
      ConflictsMutual(block[u], block[v]);
    }
  }

  lemma ConflictsMutual(a: Tx, b: Tx)
    ensures Conflicts(a, b) <==> Conflicts(b, a)
  {
    assert DeclaredWrites(a) * DeclaredReads(b) == DeclaredReads(b) * DeclaredWrites(a);
    assert DeclaredWrites(b) * DeclaredReads(a) == DeclaredReads(a) * DeclaredWrites(b);
    assert DeclaredWrites(a) * DeclaredWrites(b) == DeclaredWrites(b) * DeclaredWrites(a);
  }

  /** The pairs compared so far: all with a lower first member, and those of `i` below `j`. */
  ghost predicate Linked(block: seq<Tx>, g: Graph, i: nat, j: nat)
    requires |g| == |block|
  {
    && (forall u, v: nat :: 0 <= u < |block| && v in g[u] ==> v < |block|)
    && (forall u: nat, v: nat :: u < |block| && v < |block| ==> LinkedAt(block, g, u, v, i, j))
  }

  ghost predicate LinkedAt(block: seq<Tx>, g: Graph, u: nat, v: nat, i: nat, j: nat)
    requires |g| == |block| && u < |block| && v < |block|
  {
    v in g[u] <==> (Compared(u, v, i, j) || Compared(v, u, i, j)) && Conflicts(block[u], block[v])
  }

  ghost predicate Compared(u: nat, v: nat, i: nat, j: nat) {
    u < v && (u < i || (u == i && v < j))
  }

  // ---- Colouring ----

  /** Colours of the coloured neighbours of `v`; a negative number means no colour yet. */
  function Around(g: Graph, colors: seq<int>, v: nat): set<int>
    requires v < |g|
  {
    set u | u in g[v] && u < |colors| && colors[u] >= 0 :: colors[u]
  }

  /** DSATUR's preference among uncoloured vertices: more colours around, then more
      neighbours, then the earlier one. */
  ghost predicate Preferred(g: Graph, colors: seq<int>, v: nat, u: nat)
    requires v < |g| && u < |g|
  {
    var sv, su := |Around(g, colors, v)|, |Around(g, colors, u)|;
    sv > su || (sv == su && (|g[v]| > |g[u]| || (|g[v]| == |g[u]| && v <= u)))
  }

  ghost predicate Pick(g: Graph, colors: seq<int>, v: nat) {
    v < |g| == |colors| && colors[v] < 0 && forall u :: 0 <= u < |g| && colors[u] < 0 ==> Preferred(g, colors, v, u)
  }

  /** The least colour not in use. */
  ghost predicate LeastFree(used: set<int>, color: int) {
    color >= 0 && color !in used && forall c :: 0 <= c < color ==> c in used
  }

  ghost predicate Step(g: Graph, colors: seq<int>, colors': seq<int>) {
    exists v: nat, color :: Pick(g, colors, v) && LeastFree(Around(g, colors, v), color)
      && colors' == colors[v := color]
  }

  /** The colour arrays DSATUR goes through. */
  ghost predicate Trace(g: Graph, trace: seq<seq<int>>) {
    && |trace| > 0 && (forall k :: 0 <= k < |trace| ==> |trace[k]| == |g|)
      && (forall v :: 0 <= v < |g| ==> trace[0][v] == -1)
    && (forall k :: 0 < k < |trace| ==> Step(g, trace[k - 1], trace[k]))
  }

  /** What holds of a partial colouring: neighbours differ, no colour exceeds the number of
      neighbours, and every smaller colour occurs next to a vertex. */
  ghost predicate Proper(g: Graph, colors: seq<int>) {
    && |colors| == |g|
    && (forall u, v :: 0 <= u < |g| && v in g[u] && v < |g| && colors[u] >= 0 ==> colors[u] != colors[v])
    && (forall v :: 0 <= v < |g| ==> Tight(g, colors, v))
  }

  ghost predicate Tight(g: Graph, colors: seq<int>, v: nat)
    requires v < |g| == |colors|
  {
    colors[v] <= |g[v]| && forall c :: 0 <= c < colors[v] ==> c in Around(g, colors, v)
  }

  lemma {:induction false} AroundCount(g: Graph, colors: seq<int>, s: set<nat>, image: set<int>)
    requires forall c :: c in image ==> exists u :: u in s && u < |colors| && colors[u] == c
    ensures |image| <= |s|
    decreases s
  {
    if s == {} {
      assert forall c :: c !in image;
    } else {
      var u :| u in s;
      var color := if u < |colors| then colors[u] else 0;
      AroundCount(g, colors, s - {u}, image - {color});
      assert image <= (image - {color}) + {color};
      assert color in image ==> image == (image - {color}) + {color};
      assert color !in image ==> image == image - {color};
    }
  }

  lemma {:induction false} FreeBelow(used: set<int>, color: int)
    requires LeastFree(used, color)
    ensures color <= |used|
    decreases color
  {
    if color > 0 {
      assert color - 1 in used;
      FreeBelow(used - {color - 1}, color - 1);
    }
  }

  /** A step keeps the colouring proper. */
  lemma StepKeeps(g: Graph, colors: seq<int>, v: nat, color: int)
    requires Symmetric(g) && Proper(g, colors) && Pick(g, colors, v) && LeastFree(Around(g, colors, v), color)
    ensures Proper(g, colors[v := color])
  {
    var colors' := colors[v := color];
    FreeBelow(Around(g, colors, v), color);
    AroundCount(g, colors, g[v], Around(g, colors, v));
    forall u | 0 <= u < |g|
      ensures Tight(g, colors', u)
    {
      assert Tight(g, colors, u);
      forall c | 0 <= c < colors'[u]
        ensures c in Around(g, colors', u)
      {
        assert c in Around(g, colors, u);
        var w :| w in g[u] && w < |colors| && colors[w] >= 0 && colors[w] == c;
        assert colors'[w] == c;
      }
    }
    forall u, w | 0 <= u < |g| && w in g[u] && w < |g| && colors'[u] >= 0
      ensures colors'[u] != colors'[w]
    {
      if u == v && colors[w] >= 0 {
        assert colors[w] in Around(g, colors, v);
      } else if w == v {
        assert colors[u] in Around(g, colors, v);
      }
    }
  }

  /** Every colouring DSATUR goes through is proper, and each step colours one vertex. */
  lemma {:induction false} TraceProper(g: Graph, trace: seq<seq<int>>, k: nat)
    requires Symmetric(g) && Trace(g, trace) && k < |trace|
    ensures Proper(g, trace[k])
  {
    if k == 0 {
    } else {
      TraceProper(g, trace, k - 1);
      var v: nat, color :| Pick(g, trace[k - 1], v) && LeastFree(Around(g, trace[k - 1], v), color)
        && trace[k] == trace[k - 1][v := color];
      StepKeeps(g, trace[k - 1], v, color);
    }
  }

  /** The open-ended search for a colour: it stops at the least one not in use. */
  method FreeColor(used: set<int>) returns (color: int)
    ensures LeastFree(used, color)
  {
    color := 0;
    ghost var rest := used;
    while color in used
      invariant color >= 0 && (forall c :: 0 <= c < color ==> c in used) && rest <= used
      invariant forall c :: c in used && c >= color ==> c in rest
      decreases |rest|
    {
      rest := rest - {color};
      color := color + 1;
    }
  }

  /** The vertex DSATUR colours next. */
  method Choose(g: Graph, colors: seq<int>) returns (best: int)
    requires |colors| == |g| && exists v :: 0 <= v < |g| && colors[v] < 0
    ensures 0 <= best < |g| && Pick(g, colors, best)
  {
    best := -1;
    var bestSat, bestDegree := -1, -1;
    for vertex := 0 to |g|
      invariant if best < 0 then forall v :: 0 <= v < vertex ==> colors[v] >= 0 else
                  best < vertex && colors[best] < 0 && bestSat == |Around(g, colors, best)| && bestDegree == |g[best]|
                  && forall u :: 0 <= u < vertex && colors[u] < 0 ==> Preferred(g, colors, best, u)
    {
      if colors[vertex] < 0 {
        var sat, degree := |Around(g, colors, vertex)|, |g[vertex]|;
        if best < 0 || sat > bestSat || (sat == bestSat && degree > bestDegree) || (sat == bestSat
          && degree == bestDegree && vertex < best) {
          best, bestSat, bestDegree := vertex, sat, degree;
        }
      }
    }
  }

  ghost function Uncoloured(colors: seq<int>): set<nat> {
    set v | 0 <= v < |colors| && colors[v] < 0
  }

  /** Colours the whole graph. */
  method Colour(g: Graph) returns (colors: seq<int>, ghost trace: seq<seq<int>>)
    requires Symmetric(g)
    ensures Proper(g, colors) && forall v :: 0 <= v < |g| ==> colors[v] >= 0
    ensures Trace(g, trace) && trace[|trace| - 1] == colors && |trace| == |g| + 1
  {
    colors := seq(|g|, i => -1);
    trace := [colors];
    var uncolored := |g|;
    NothingColoured(g, colors);
    hide *;
    while uncolored > 0
      invariant |colors| == |g| && uncolored == |Uncoloured(colors)| && |trace| == |g| + 1 - uncolored
      invariant Trace(g, trace) && trace[|trace| - 1] == colors
    {
      SomeUncoloured(colors);
      var best := Choose(g, colors);
      var color := FreeColor(Around(g, colors, best));
      ColourOne(g, colors, best, color);
      TraceNext(g, trace, best, color);
      colors := colors[best := color];
      trace := trace + [colors];
      uncolored := uncolored - 1;
    }
    TraceProper(g, trace, |g|);
    AllColoured(colors);
  }

  lemma NothingColoured(g: Graph, colors: seq<int>)
    requires |colors| == |g| && forall v :: 0 <= v < |g| ==> colors[v] == -1
    ensures |Uncoloured(colors)| == |g| && Trace(g, [colors])
  {
    RangeCount(|g|);
    assert Uncoloured(colors) == Range(|g|);
  }

  lemma SomeUncoloured(colors: seq<int>)
    requires |Uncoloured(colors)| > 0
    ensures exists v :: 0 <= v < |colors| && colors[v] < 0
  {
    var v :| v in Uncoloured(colors);
  }

  lemma AllColoured(colors: seq<int>)
    requires |Uncoloured(colors)| == 0
    ensures forall v :: 0 <= v < |colors| ==> colors[v] >= 0
  {
    forall v | 0 <= v < |colors|
      ensures colors[v] >= 0
    {
      assert v !in Uncoloured(colors);
    }
  }

  lemma ColourOne(g: Graph, colors: seq<int>, v: nat, color: int)
    requires Pick(g, colors, v) && LeastFree(Around(g, colors, v), color)
    ensures v < |colors| && |Uncoloured(colors[v := color])| == |Uncoloured(colors)| - 1
  {
    assert Uncoloured(colors) == Uncoloured(colors[v := color]) + {v};
  }

  lemma TraceNext(g: Graph, trace: seq<seq<int>>, v: nat, color: int)
    requires Trace(g, trace) && Pick(g, trace[|trace| - 1], v) && LeastFree(Around(g, trace[|trace| - 1], v), color)
    ensures Trace(g, trace + [trace[|trace| - 1][v := color]])
  {
    var colors' := trace[|trace| - 1][v := color];
    var trace' := trace + [colors'];
    forall k | 0 < k < |trace'|
      ensures Step(g, trace'[k - 1], trace'[k])
    {
      if k < |trace| {
        assert Step(g, trace[k - 1], trace[k]);
      } else {
        assert Step(g, trace[k - 1], colors');
      }
    }
  }

  // ---- Waves ----

  /** Wave `c` lists the vertices of colour `c` in increasing order, and none is empty. */
  ghost predicate WavesOf(colors: seq<int>, waves: seq<seq<nat>>) {
    && (forall v :: 0 <= v < |colors| ==> colors[v] < |waves|)
    && (forall c :: 0 <= c < |waves| ==> Class(colors, c, waves[c]) && waves[c] != [])
  }

  ghost predicate Class(colors: seq<int>, c: int, wave: seq<nat>) {
    && (forall v: nat :: v in wave <==> v < |colors| && colors[v] == c)
    && (forall p, r :: 0 <= p < r < |wave| ==> wave[p] < wave[r])
  }

  method CutWaves(g: Graph, colors: seq<int>) returns (waves: seq<seq<nat>>)
    requires Proper(g, colors) && forall v :: 0 <= v < |g| ==> colors[v] >= 0
    ensures WavesOf(colors, waves)
  {
    var maxColor := -1;
    for v := 0 to |colors|
      invariant maxColor >= -1 && (forall u :: 0 <= u < v ==> colors[u] <= maxColor)
      invariant (maxColor >= 0 ==> exists u :: 0 <= u < v && colors[u] == maxColor)
    {
      if colors[v] > maxColor {
        maxColor := colors[v];
      }
    }
    waves := [];
    for color := 0 to maxColor + 1
      invariant |waves| == color && forall c :: 0 <= c < color ==> Class(colors, c, waves[c]) && waves[c] != []
    {
      var indexes: seq<nat> := [];
      for index := 0 to |colors|
        invariant forall v: nat :: v in indexes <==> v < index && colors[v] == color
        invariant (forall p :: 0 <= p < |indexes| ==> indexes[p] < index)
        invariant forall p, r :: 0 <= p < r < |indexes| ==> indexes[p] < indexes[r]
      {
        if colors[index] == color {
          indexes := indexes + [index];
        }
      }
      ColourOccurs(g, colors, maxColor, color);
      waves := waves + [indexes];
    }
  }

  /** Every colour up to a used one is used. */
  lemma ColourOccurs(g: Graph, colors: seq<int>, top: int, c: int)
    requires Proper(g, colors) && 0 <= c <= top && exists u :: 0 <= u < |colors| && colors[u] == top
    ensures exists v :: 0 <= v < |colors| && colors[v] == c
  {
    var u :| 0 <= u < |colors| && colors[u] == top;
    if c < top {
      assert Tight(g, colors, u) && c in Around(g, colors, u);
    }
  }

  /** What a plan promises: the waves partition the block and nobody conflicts within one. */
  ghost predicate Plan(block: seq<Tx>, waves: seq<seq<nat>>) {
    && (forall v: nat :: v < |block| ==> Scheduled(waves, v))
    && (forall c, d, v: nat :: 0 <= c < d < |waves| && v in waves[c] ==> v !in waves[d])
    && (forall c :: 0 <= c < |waves| ==> waves[c] != [] && Peaceful(block, waves[c]))
  }

  ghost predicate Scheduled(waves: seq<seq<nat>>, v: nat) {
    exists c :: 0 <= c < |waves| && v in waves[c]
  }

  /** Distinct transactions of the block, in block order, without a conflict among them. */
  ghost predicate Peaceful(block: seq<Tx>, wave: seq<nat>) {
    && (forall p :: 0 <= p < |wave| ==> wave[p] < |block|)
    && (forall p, r :: 0 <= p < r < |wave| ==> wave[p] < wave[r] && !Conflicts(block[wave[p]], block[wave[r]]))
  }

  /** What `literatureAccessDescriptors` demands of a block. */
  ghost predicate UsableIds(block: seq<Tx>) {
    (forall i :: 0 <= i < |block| ==> block[i].id != Empty) && forall i, j ::
      0 <= i < j < |block| ==> block[i].id != block[j].id
  }

  method CheckIds(block: seq<Tx>) returns (ok: bool)
    ensures ok <==> UsableIds(block)
  {
    var seen: set<Id> := {};
    for i := 0 to |block|
      invariant forall id :: id in seen <==> exists j :: 0 <= j < i && block[j].id == id
      invariant (forall j :: 0 <= j < i ==> block[j].id != Empty)
      invariant forall j, k :: 0 <= j < k < i ==> block[j].id != block[k].id
    {
      if block[i].id == Empty || block[i].id in seen {
        return false;
      }
      seen := seen + {block[i].id};
    }
    ok := true;
  }

  /** Every transaction of a wave conflicts with a member of every earlier wave. */
  ghost predicate Layered(block: seq<Tx>, waves: seq<seq<nat>>) {
    forall c, d, v :: 0 <= c < d < |waves| && v in waves[d] && v < |block| ==> MeetsWave(block, waves[c], v)
  }

  ghost predicate MeetsWave(block: seq<Tx>, wave: seq<nat>, v: nat)
    requires v < |block|
  {
    exists u :: u in wave && u < |block| && Conflicts(block[u], block[v])
  }

  /** No key that one member of the wave declares to write is declared by another. */
  ghost predicate Separate(block: seq<Tx>, wave: seq<nat>) {
    forall u, v :: u in wave && v in wave && u != v && u < |block| && v < |block| ==> !Disturbs(block[u], block[v])
  }

  lemma PeacefulIsSeparate(block: seq<Tx>, wave: seq<nat>)
    requires Peaceful(block, wave)
    ensures Separate(block, wave)
  {
    hide Conflicts; hide Disturbs;
    forall u, v | u in wave && v in wave && u != v && u < |block| && v < |block|
      ensures !Disturbs(block[u], block[v])
    {
      var p, r :| 0 <= p < |wave| && wave[p] == u && 0 <= r < |wave| && wave[r] == v;
      ConflictsMutual(block[u], block[v]);
      ConflictsDisturb(block[u], block[v]);
    }
  }

  /** `buildBSXPlan`. */
  method BuildPlan(block: seq<Tx>) returns (r: Option<seq<seq<nat>>>)
    ensures r.Some? <==> UsableIds(block)
    ensures r.Some? ==> Plan(block, r.value) && Layered(block, r.value)
    ensures r.Some? ==> forall c :: 0 <= c < |r.value| ==> Separate(block, r.value[c])
  {
    var ok := CheckIds(block);
    if !ok {
      return None;
    }
    var g, edges := ConflictGraph(block);
    var colors, trace := Colour(g);
    var waves := CutWaves(g, colors);
    ColoursPlan(block, g, colors, waves);
    ColoursLayer(block, g, colors, waves);
    forall c | 0 <= c < |waves|
      ensures Separate(block, waves[c])
    {
      assert Peaceful(block, waves[c]);
      PeacefulIsSeparate(block, waves[c]);
    }
    r := Some(waves);
  }

  lemma ColoursLayer(block: seq<Tx>, g: Graph, colors: seq<int>, waves: seq<seq<nat>>)
    requires |g| == |block| && Symmetric(g) && Proper(g, colors) && WavesOf(colors, waves)
    requires forall u, v ::
      0 <= u < |block| && 0 <= v < |block| ==> (v in g[u] <==> u != v && Conflicts(block[u], block[v]))
    ensures Layered(block, waves)
  {
    hide Conflicts;
    forall c, d, v | 0 <= c < d < |waves| && v in waves[d] && v < |block|
      ensures MeetsWave(block, waves[c], v)
    {
      assert Class(colors, d, waves[d]) && Class(colors, c, waves[c]);
      assert Tight(g, colors, v) && c in Around(g, colors, v);
      var u :| u in g[v] && u < |colors| && colors[u] == c;
      assert v in g[u];
    }
  }

  lemma ColoursPlan(block: seq<Tx>, g: Graph, colors: seq<int>, waves: seq<seq<nat>>)
    requires |g| == |block| && Proper(g, colors) && WavesOf(colors, waves)
    requires (forall v :: 0 <= v < |g| ==> colors[v] >= 0)
    requires forall u, v ::
      0 <= u < |block| && 0 <= v < |block| ==> (v in g[u] <==> u != v && Conflicts(block[u], block[v]))
    ensures Plan(block, waves)
  {
    forall v: nat | v < |block|
      ensures Scheduled(waves, v)
    {
      assert Class(colors, colors[v], waves[colors[v]]);
    }
    forall c | 0 <= c < |waves|
      ensures waves[c] != [] && Peaceful(block, waves[c])
    {
      var wave := waves[c];
      assert Class(colors, c, wave);
      forall p | 0 <= p < |wave|
        ensures wave[p] < |block| && colors[wave[p]] == c
      {
        assert wave[p] in wave;
      }
      forall p, r | 0 <= p < r < |wave|
        ensures !Conflicts(block[wave[p]], block[wave[r]])
      {
        assert colors[wave[p]] == colors[wave[r]];
      }
    }
  }
}
