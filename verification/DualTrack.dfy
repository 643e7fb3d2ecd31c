/** Dual-track scheduling: per execution shard a fast and a conservative queue, drained one item
    per shard and round, fast items first. */
module DualTrack {

  import opened Basics

  datatype Track = Fast | Conservative

  datatype Decision = Decision(id: Token, track: Track, shard: nat)

  function Home(d: Decision, shards: nat): (s: nat)
    requires shards > 0
    ensures s < shards
  {
    d.shard % shards
  }

  /** The decisions of one shard, in order. */
  ghost function OfShard(list: seq<Decision>, shards: nat, s: nat, n: nat): seq<Decision>
    requires shards > 0 && n <= |list|
  {
    if n == 0 then [] else
      OfShard(list, shards, s, n - 1) + if Home(list[n - 1], shards) == s then [list[n - 1]] else []
  }

  /** The decisions of one shard and track, in order. */
  ghost function OfTrack(list: seq<Decision>, shards: nat, s: nat, track: Track, n: nat): seq<Decision>
    requires shards > 0 && n <= |list|
  {
    if n == 0 then [] else
      OfTrack(list, shards, s, track, n - 1) + if Home(list[n - 1], shards) == s && list[n - 1].track == track then
        [list[n - 1]] else []
  }

  /** What a shard is due to execute: its fast items, then its conservative ones. */
  ghost function Due(list: seq<Decision>, shards: nat, s: nat): seq<Decision>
    requires shards > 0
  {
    OfTrack(list, shards, s, Fast, |list|) + OfTrack(list, shards, s, Conservative, |list|)
  }

  lemma ShardOfAppend(list: seq<Decision>, d: Decision, shards: nat, s: nat)
    requires shards > 0
    ensures OfShard(list + [d], shards, s, |list| + 1) == OfShard(list, shards, s, |list|) + if Home(d,
        shards) == s then [d] else []
  {
    ShardPrefix(list, [d], shards, s, |list|);
  }

  lemma {:induction false} ShardPrefix(list: seq<Decision>, more: seq<Decision>, shards: nat, s: nat, n: nat)
    requires shards > 0 && n <= |list|
    ensures OfShard(list + more, shards, s, n) == OfShard(list, shards, s, n)
  {
    if n > 0 {
      ShardPrefix(list, more, shards, s, n - 1);
    }
  }

  // ---- Nothing is lost ----

  /** How often `d` occurs among the first `n`. */
  ghost function Count(list: seq<Decision>, d: Decision, n: nat): nat
    requires n <= |list|
  {
    if n == 0 then 0 else Count(list, d, n - 1) + if list[n - 1] == d then 1 else 0
  }

  lemma {:induction false} CountIsBag(list: seq<Decision>, d: Decision, n: nat)
    requires n <= |list|
    ensures multiset(list[..n])[d] == Count(list, d, n)
  {
    if n > 0 {
      CountIsBag(list, d, n - 1);
      assert list[..n] == list[..n - 1] + [list[n - 1]];
    }
  }

  lemma {:induction false} CountAppend(a: seq<Decision>, b: seq<Decision>, d: Decision, n: nat)
    requires n <= |b|
    ensures Count(a + b, d, |a| + n) == Count(a, d, |a|) + Count(b, d, n)
  {
    if n > 0 {
      CountAppend(a, b, d, n - 1);
    } else {
      CountPrefix(a, b, d, |a|);
    }
  }

  lemma {:induction false} CountPrefix(a: seq<Decision>, b: seq<Decision>, d: Decision, n: nat)
    requires n <= |a|
    ensures Count(a + b, d, n) == Count(a, d, n)
  {
    if n > 0 {
      CountPrefix(a, b, d, n - 1);
    }
  }

  lemma {:induction false} ShardCount(list: seq<Decision>, shards: nat, d: Decision, n: nat)
    requires shards > 0 && n <= |list|
    ensures var mine := OfShard(list, shards, Home(d, shards), n); Count(mine, d, |mine|) == Count(list, d, n)
  {
    hide Home;
    if n > 0 {
      ShardCount(list, shards, d, n - 1);
      var before := OfShard(list, shards, Home(d, shards), n - 1);
      CountAppend(before, [list[n - 1]], d, 1);
      assert before + [] == before;
    }
  }

  lemma {:induction false} TrackCount(list: seq<Decision>, shards: nat, d: Decision, n: nat)
    requires shards > 0 && n <= |list|
    ensures var fast, slow := OfTrack(list, shards, Home(d, shards), Fast, n),
        OfTrack(list, shards, Home(d, shards), Conservative, n);
      Count(fast, d, |fast|) + Count(slow, d, |slow|) == Count(list, d, n)
  {
    hide Home;
    if n > 0 {
      TrackCount(list, shards, d, n - 1);
      var fast, slow := OfTrack(list, shards, Home(d, shards), Fast, n - 1),
        OfTrack(list, shards, Home(d, shards), Conservative, n - 1);
      CountAppend(fast, [list[n - 1]], d, 1);
      CountAppend(slow, [list[n - 1]], d, 1);
      assert fast + [] == fast && slow + [] == slow;
    }
  }

  /** If every shard executed what it was due, the output is a permutation of the input. */
  lemma DueIsAll(list: seq<Decision>, out: seq<Decision>, shards: nat)
    requires shards > 0 && forall s: nat :: s < shards ==> OfShard(out, shards, s, |out|) == Due(list, shards, s)
    ensures multiset(out) == multiset(list)
  {
    forall d: Decision
      ensures multiset(out)[d] == multiset(list)[d]
    {
      hide Home; hide Count; hide OfShard; hide OfTrack;
      ShardCount(out, shards, d, |out|);
      TrackCount(list, shards, d, |list|);
      CountIsBag(out, d, |out|);
      CountIsBag(list, d, |list|);
      assert out[..|out|] == out && list[..|list|] == list;
      var fast, slow := OfTrack(list, shards, Home(d, shards), Fast, |list|),
        OfTrack(list, shards, Home(d, shards), Conservative, |list|);
      CountAppend(fast, slow, d, |slow|);
      assert OfShard(out, shards, Home(d, shards), |out|) == fast + slow;
    }
  }

  // ---- The computation ----

  ghost predicate Queues(list: seq<Decision>, shards: nat, n: nat, fast: seq<seq<Decision>>, slow: seq<seq<Decision>>) {
    && shards > 0 && n <= |list| && |fast| == |slow| == shards
    && forall s: nat ::
      s < shards ==>
        && fast[s] == OfTrack(list, shards, s, Fast, n)
        && slow[s] == OfTrack(list, shards, s, Conservative, n)
  }

  /** Sorts the decisions into the queues. */
  method Enqueue(list: seq<Decision>, shards: nat) returns (fast: seq<seq<Decision>>, slow: seq<seq<Decision>>)
    requires shards > 0
    ensures Queues(list, shards, |list|, fast, slow)
  {
    fast, slow := seq(shards, i => []), seq(shards, i => []);
    hide Home;
    for n := 0 to |list|
      invariant Queues(list, shards, n, fast, slow)
    {
      var d := list[n];
      var s := Home(d, shards);
      if d.track == Fast {
        fast := fast[s := fast[s] + [d]];
      } else {
        slow := slow[s := slow[s] + [d]];
      }
    }
  }

  /** What is executed and what still waits make up what every shard is due. */
  ghost predicate Balanced(list: seq<Decision>, out: seq<Decision>, shards: nat, fast: seq<seq<Decision>>,
      slow: seq<seq<Decision>>) {
    && shards > 0 && |fast| == |slow| == shards
    && forall s: nat :: s < shards ==> OfShard(out, shards, s, |out|) + fast[s] + slow[s] == Due(list, shards, s)
  }

  /** All waiting items belong where they wait. */
  ghost predicate AtHome(shards: nat, fast: seq<seq<Decision>>, slow: seq<seq<Decision>>) {
    && shards > 0 && |fast| == |slow| == shards
    && forall s: nat, i :: s < shards ==>
      && (0 <= i < |fast[s]| ==> Home(fast[s][i], shards) == s && fast[s][i].track == Fast)
      && (0 <= i < |slow[s]| ==> Home(slow[s][i], shards) == s && slow[s][i].track == Conservative)
  }

  lemma {:induction false} TrackAtHome(list: seq<Decision>, shards: nat, s: nat, track: Track, n: nat, i: nat)
    requires shards > 0 && n <= |list| && i < |OfTrack(list, shards, s, track, n)|
    ensures Home(OfTrack(list, shards, s, track, n)[i], shards) == s
    ensures OfTrack(list, shards, s, track, n)[i].track == track
  {
    hide Home;
    if i < |OfTrack(list, shards, s, track, n - 1)| {
      TrackAtHome(list, shards, s, track, n - 1, i);
    }
  }

  /** How many items of a shard wait. */
  function Waiting(fast: seq<seq<Decision>>, slow: seq<seq<Decision>>, s: nat): nat
    requires s < |fast| == |slow|
  {
    |fast[s]| + |slow[s]|
  }

  ghost predicate Served(length: seq<nat>, fast: seq<seq<Decision>>, slow: seq<seq<Decision>>, rounds: nat, upTo: nat) {
    && |length| == |fast| == |slow|
    && forall s: nat :: s < |length| ==> Waiting(fast, slow, s) == Rest(length[s], rounds + if s < upTo then 1 else 0)
  }

  function Rest(length: nat, rounds: nat): nat {
    if length < rounds then 0 else length - rounds
  }

  lemma PopFast(list: seq<Decision>, out: seq<Decision>, shards: nat, fast: seq<seq<Decision>>,
      slow: seq<seq<Decision>>, s: nat)
    requires Balanced(list, out, shards, fast, slow) && AtHome(shards, fast, slow) && s < shards && fast[s] != []
    ensures Balanced(list, out + [fast[s][0]], shards, fast[s := fast[s][1..]], slow)
    ensures AtHome(shards, fast[s := fast[s][1..]], slow)
  {
    hide Home; hide Due; hide OfShard;
    var d, out' := fast[s][0], out + [fast[s][0]];
    forall t: nat | t < shards
      ensures OfShard(out', shards, t, |out'|) + fast[s := fast[s][1..]][t] + slow[t] == Due(list, shards, t)
    {
      ShardOfAppend(out, d, shards, t);
      if t == s {
        assert [d] + fast[s][1..] == fast[s];
        assert OfShard(out, shards, s, |out|) + [d] + fast[s][1..] + slow[s] == OfShard(out, shards, s,
          |out|) + ([d] + fast[s][1..]) + slow[s];
      } else {
        assert OfShard(out, shards, t, |out|) + [] == OfShard(out, shards, t, |out|);
      }
    }
  }

  lemma PopSlow(list: seq<Decision>, out: seq<Decision>, shards: nat, fast: seq<seq<Decision>>,
      slow: seq<seq<Decision>>, s: nat)
    requires Balanced(list, out, shards, fast, slow) && AtHome(shards, fast, slow) && s < shards && fast[s] == []
    requires slow[s] != []
    ensures Balanced(list, out + [slow[s][0]], shards, fast, slow[s := slow[s][1..]])
    ensures AtHome(shards, fast, slow[s := slow[s][1..]])
  {
    hide Home; hide Due; hide OfShard;
    var d, out' := slow[s][0], out + [slow[s][0]];
    forall t: nat | t < shards
      ensures OfShard(out', shards, t, |out'|) + fast[t] + slow[s := slow[s][1..]][t] == Due(list, shards, t)
    {
      ShardOfAppend(out, d, shards, t);
      if t == s {
        assert [d] + slow[s][1..] == slow[s];
        assert OfShard(out, shards, s, |out|) + [d] + [] + slow[s][1..] == OfShard(out, shards, s,
          |out|) + [] + ([d] + slow[s][1..]);
      } else {
        assert OfShard(out, shards, t, |out|) + [] == OfShard(out, shards, t, |out|);
      }
    }
  }

  /** The counters: how many items of a track were executed. */
  ghost function Executed(out: seq<Decision>, track: Track, n: nat): nat
    requires n <= |out|
  {
    if n == 0 then 0 else Executed(out, track, n - 1) + if out[n - 1].track == track then 1 else 0
  }

  lemma {:induction false} ExecutedPrefix(out: seq<Decision>, more: seq<Decision>, track: Track, n: nat)
    requires n <= |out|
    ensures Executed(out + more, track, n) == Executed(out, track, n)
  {
    if n > 0 {
      ExecutedPrefix(out, more, track, n - 1);
    }
  }

  /** One shard executes its next item, a fast one if there is one, or idles. */
  method Serve(shards: nat, s: nat, out0: seq<Decision>, fast0: seq<seq<Decision>>, slow0: seq<seq<Decision>>,
      ghost list: seq<Decision>, ghost length: seq<nat>, ghost rounds: nat)
    returns (out: seq<Decision>, fast: seq<seq<Decision>>, slow: seq<seq<Decision>>, ran: Option<Track>)
    requires Balanced(list, out0, shards, fast0, slow0) && AtHome(shards, fast0, slow0)
    requires s < shards == |fast0| == |slow0| && Served(length, fast0, slow0, rounds, s)
    requires DueLengths(list, shards, length) && Fair(list, out0, shards)
    ensures Balanced(list, out, shards, fast, slow) && AtHome(shards, fast, slow)
    ensures Served(length, fast, slow, rounds, s + 1) && |fast| == |slow| == shards
    ensures Fair(list, out, shards)
    ensures forall t: nat :: s < t < shards ==> fast[t] == fast0[t] && slow[t] == slow0[t]
    ensures ran.None? <==> Waiting(fast0, slow0, s) == 0
    ensures Ran(out0, out, ran)
  {
    hide Balanced; hide AtHome; hide Home; hide Executed; hide Served; hide Fair; hide FairAt; hide DueLengths;
    out, fast, slow, ran := out0, fast0, slow0, None;
    ServeOne(length, fast, slow, rounds, s);
    HeadTrack(shards, fast, slow, s);
    if |fast[s]| > 0 {
      PopFast(list, out, shards, fast, slow, s);
      RanOne(out, fast[s][0]);
      FairNow(list, out + [fast[s][0]], shards, fast[s := fast[s][1..]], slow, length, rounds, s + 1);
      FairNext(list, out, fast[s][0], shards);
      out := out + [fast[s][0]];
      fast := fast[s := fast[s][1..]];
      ran := Some(Fast);
    } else if |slow[s]| > 0 {
      PopSlow(list, out, shards, fast, slow, s);
      RanOne(out, slow[s][0]);
      FairNow(list, out + [slow[s][0]], shards, fast, slow[s := slow[s][1..]], length, rounds, s + 1);
      FairNext(list, out, slow[s][0], shards);
      out := out + [slow[s][0]];
      slow := slow[s := slow[s][1..]];
      ran := Some(Conservative);
    }
  }

  /** One more item of the given track was executed. */
  ghost predicate Ran(out0: seq<Decision>, out: seq<Decision>, ran: Option<Track>) {
    forall track :: Executed(out, track, |out|) == Executed(out0, track, |out0|) + if ran == Some(track) then 1 else 0
  }

  lemma RanOne(out: seq<Decision>, d: Decision)
    ensures Ran(out, out + [d], Some(d.track))
  {
    forall track
      ensures Executed(out + [d], track, |out + [d]|) == Executed(out, track,
          |out|) + if Some(d.track) == Some(track) then 1 else 0
    {
      ExecutedPrefix(out, [d], track, |out|);
    }
  }

  /** One round over all shards. */
  method Round(shards: nat, out0: seq<Decision>, fast0: seq<seq<Decision>>, slow0: seq<seq<Decision>>,
      ghost list: seq<Decision>, ghost length: seq<nat>, ghost rounds: nat)
    returns (out: seq<Decision>, fast: seq<seq<Decision>>, slow: seq<seq<Decision>>, ranFast: nat, ranSlow: nat,
      idle: nat)
    requires Balanced(list, out0, shards, fast0, slow0) && AtHome(shards, fast0, slow0)
    requires |length| == |fast0| == |slow0| == shards && Served(length, fast0, slow0, rounds, 0)
    requires DueLengths(list, shards, length) && Fair(list, out0, shards)
    ensures Balanced(list, out, shards, fast, slow) && AtHome(shards, fast, slow)
    ensures Served(length, fast, slow, rounds + 1, 0) && |fast| == |slow| == shards
    ensures Fair(list, out, shards)
    ensures ranFast + ranSlow + idle == shards
    ensures ranFast + ranSlow == 0 <==> forall s: nat :: s < shards ==> Waiting(fast0, slow0, s) == 0
    ensures Executed(out, Fast, |out|) == Executed(out0, Fast, |out0|) + ranFast
    ensures Executed(out, Conservative, |out|) == Executed(out0, Conservative, |out0|) + ranSlow
  {
    out, fast, slow, ranFast, ranSlow, idle := out0, fast0, slow0, 0, 0, 0;
    hide Balanced; hide AtHome; hide Executed; hide Served; hide Fair; hide FairAt; hide DueLengths;
    for s := 0 to shards
      invariant Fair(list, out, shards)
      invariant Balanced(list, out, shards, fast, slow) && AtHome(shards, fast, slow)
      invariant Served(length, fast, slow, rounds, s) && |fast| == |slow| == shards
      invariant ranFast + ranSlow + idle == s
      invariant ranFast + ranSlow == 0 <==> forall t: nat :: t < s ==> Waiting(fast0, slow0, t) == 0
      invariant forall t: nat :: s <= t < shards ==> fast[t] == fast0[t] && slow[t] == slow0[t]
      invariant Executed(out, Fast, |out|) == Executed(out0, Fast, |out0|) + ranFast
      invariant Executed(out, Conservative, |out|) == Executed(out0, Conservative, |out0|) + ranSlow
    {
      var ran;
      out, fast, slow, ran := Serve(shards, s, out, fast, slow, list, length, rounds);
      if ran == Some(Fast) {
        ranFast := ranFast + 1;
      } else if ran == Some(Conservative) {
        ranSlow := ranSlow + 1;
      } else {
        idle := idle + 1;
      }
    }
    RoundServed(length, fast, slow, rounds);
  }

  /** After `n` items: no shard is ahead of another by more than the item of this round, and
      within a round shards go in order, except past the end of a queue. */
  ghost predicate FairAt(list: seq<Decision>, out: seq<Decision>, shards: nat, n: nat)
    requires shards > 0 && n <= |out|
  {
    forall s: nat, t: nat :: s < shards && t < shards ==>
      |OfShard(out, shards, t, n)| <= |OfShard(out, shards, s, n)| + (if s < t then 0 else 1) || |OfShard(out, shards,
        s, n)| == |Due(list, shards, s)|
  }

  ghost predicate Fair(list: seq<Decision>, out: seq<Decision>, shards: nat)
    requires shards > 0
  {
    forall n: nat :: n <= |out| ==> FairAt(list, out, shards, n)
  }

  ghost predicate DueLengths(list: seq<Decision>, shards: nat, length: seq<nat>) {
    shards > 0 && |length| == shards && forall s: nat :: s < shards ==> length[s] == |Due(list, shards, s)|
  }

  lemma FairNow(list: seq<Decision>, out: seq<Decision>, shards: nat, fast: seq<seq<Decision>>,
      slow: seq<seq<Decision>>, length: seq<nat>, rounds: nat, upTo: nat)
    requires Balanced(list, out, shards, fast, slow) && DueLengths(list, shards, length)
    requires Served(length, fast, slow, rounds, upTo)
    ensures FairAt(list, out, shards, |out|)
  {
    hide Due; hide OfShard;
    forall s: nat | s < shards
      ensures |OfShard(out, shards, s, |out|)| + Waiting(fast, slow, s) == length[s]
    {
    }
  }

  lemma FairNext(list: seq<Decision>, out: seq<Decision>, d: Decision, shards: nat)
    requires shards > 0 && Fair(list, out, shards) && FairAt(list, out + [d], shards, |out| + 1)
    ensures Fair(list, out + [d], shards)
  {
    hide Due; hide OfShard;
    forall n: nat | n <= |out|
      ensures FairAt(list, out + [d], shards, n)
    {
      assert FairAt(list, out, shards, n);
      forall s: nat | s < shards
        ensures OfShard(out + [d], shards, s, n) == OfShard(out, shards, s, n)
      {
        ShardPrefix(out, [d], shards, s, n);
      }
    }
  }

  lemma HeadTrack(shards: nat, fast: seq<seq<Decision>>, slow: seq<seq<Decision>>, s: nat)
    requires AtHome(shards, fast, slow) && s < shards
    ensures |fast| == |slow| == shards && (fast[s] != [] ==> fast[s][0].track == Fast)
    ensures (slow[s] != [] ==> slow[s][0].track == Conservative)
  {
  }

  lemma ServeOne(length: seq<nat>, fast: seq<seq<Decision>>, slow: seq<seq<Decision>>, rounds: nat, s: nat)
    requires Served(length, fast, slow, rounds, s) && s < |fast| == |slow|
    ensures fast[s] != [] ==> Served(length, fast[s := fast[s][1..]], slow, rounds, s + 1)
    ensures fast[s] == [] && slow[s] != [] ==> Served(length, fast, slow[s := slow[s][1..]], rounds, s + 1)
    ensures fast[s] == [] && slow[s] == [] ==> Served(length, fast, slow, rounds, s + 1)
  {
  }

  lemma RoundServed(length: seq<nat>, fast: seq<seq<Decision>>, slow: seq<seq<Decision>>, rounds: nat)
    requires Served(length, fast, slow, rounds, |fast|)
    ensures Served(length, fast, slow, rounds + 1, 0)
  {
  }

  /** The longest of the queues. */
  ghost predicate Longest(length: seq<nat>, largest: nat) {
    (forall s :: 0 <= s < |length| ==> length[s] <= largest)
      && (largest == 0 || exists s :: 0 <= s < |length| && length[s] == largest)
  }

  lemma {:induction false} HasLongest(length: seq<nat>) returns (largest: nat)
    ensures Longest(length, largest)
  {
    if length == [] {
      largest := 0;
    } else {
      var last := |length| - 1;
      var before := HasLongest(length[..last]);
      largest := if before < length[last] then length[last] else before;
    }
  }

  ghost function Lengths(list: seq<Decision>, shards: nat, n: nat): (r: seq<nat>)
    requires shards > 0
    ensures |r| == n && forall s :: 0 <= s < n ==> r[s] == |Due(list, shards, s)|
  {
    if n == 0 then [] else Lengths(list, shards, n - 1) + [|Due(list, shards, n - 1)|]
  }

  /** `Schedule`. */
  method Schedule(list: seq<Decision>, shardCount: int)
      returns (out: seq<Decision>, fastExecuted: nat, slowExecuted: nat, idle: nat, ghost shards: nat,
      ghost largest: nat)
    ensures shards == if shardCount <= 0 then 1 else shardCount
    ensures forall s: nat :: s < shards ==> OfShard(out, shards, s, |out|) == Due(list, shards, s)
    ensures multiset(out) == multiset(list) && Fair(list, out, shards)
    ensures fastExecuted == Executed(out, Fast, |out|) && slowExecuted == Executed(out, Conservative, |out|)
    ensures Longest(Lengths(list, shards, shards), largest)
    ensures fastExecuted + slowExecuted + idle == shards * (1 + largest)
  {
    hide *;
    var count := if shardCount <= 0 then 1 else shardCount;
    shards := count;
    var fast, slow := Enqueue(list, count);
    out, fastExecuted, slowExecuted, idle := [], 0, 0, 0;
    ghost var length := Lengths(list, shards, shards);
    largest := HasLongest(length);
    Begin(list, shards, fast, slow, length);
    ghost var rounds: nat := 0;
    var progress := true;
    SlotsNext(count, 0);
    while progress
      invariant Balanced(list, out, count, fast, slow) && AtHome(count, fast, slow)
      invariant Served(length, fast, slow, rounds, 0) && |fast| == |slow| == count
      invariant fastExecuted == Executed(out, Fast, |out|) && slowExecuted == Executed(out, Conservative, |out|)
      invariant Fair(list, out, count)
      invariant fastExecuted + slowExecuted + idle == Slots(count, rounds)
      invariant if progress then rounds <= largest else rounds == largest + 1
      decreases largest + 1 - rounds
    {
      ghost var fast0, slow0 := fast, slow;
      var ranFast, ranSlow, idled;
      out, fast, slow, ranFast, ranSlow, idled := Round(count, out, fast, slow, list, length, rounds);
      progress := ranFast + ranSlow > 0;
      Progress(length, largest, fast0, slow0, rounds, progress);
      fastExecuted, slowExecuted, idle := fastExecuted + ranFast, slowExecuted + ranSlow, idle + idled;
      SlotsNext(count, rounds);
      rounds := rounds + 1;
    }
    Finish(list, out, count, fast, slow, length, largest);
    AllSlots(count, largest);
  }

  /** Shards times rounds: every shard has one slot a round. */
  ghost function Slots(shards: nat, rounds: nat): nat {
    shards * rounds
  }

  lemma SlotsNext(shards: nat, rounds: nat)
    ensures Slots(shards, 0) == 0 && Slots(shards, rounds + 1) == Slots(shards, rounds) + shards
  {
  }

  lemma AllSlots(shards: nat, largest: nat)
    ensures Slots(shards, largest + 1) == shards * (1 + largest)
  {
  }

  lemma Begin(list: seq<Decision>, shards: nat, fast: seq<seq<Decision>>, slow: seq<seq<Decision>>, length: seq<nat>)
    requires Queues(list, shards, |list|, fast, slow) && length == Lengths(list, shards, shards)
    ensures |length| == |fast| == |slow| == shards && Balanced(list, [], shards, fast, slow)
    ensures AtHome(shards, fast, slow) && Served(length, fast, slow, 0, 0)
    ensures Executed([], Fast, 0) == 0 == Executed([], Conservative, 0) && DueLengths(list, shards, length)
    ensures Fair(list, [], shards)
  {
    hide Home;
    forall s: nat | s < shards
      ensures OfShard([], shards, s, 0) + fast[s] + slow[s] == Due(list, shards, s)
    {
    }
    forall s: nat, i | s < shards
      ensures (0 <= i < |fast[s]| ==> Home(fast[s][i], shards) == s && fast[s][i].track == Fast)
      ensures (0 <= i < |slow[s]| ==> Home(slow[s][i], shards) == s && slow[s][i].track == Conservative)
    {
      if 0 <= i < |fast[s]| {
        TrackAtHome(list, shards, s, Fast, |list|, i);
      }
      if 0 <= i < |slow[s]| {
        TrackAtHome(list, shards, s, Conservative, |list|, i);
      }
    }
  }

  /** A round without work comes exactly after as many rounds as the longest queue is long. */
  lemma Progress(length: seq<nat>, largest: nat, fast: seq<seq<Decision>>, slow: seq<seq<Decision>>, rounds: nat,
      progress: bool)
    requires Longest(length, largest) && Served(length, fast, slow, rounds, 0) && rounds <= largest && |fast| == |slow|
    requires !progress <==> forall s: nat :: s < |fast| ==> Waiting(fast, slow, s) == 0
    ensures if progress then rounds + 1 <= largest else rounds == largest
  {
    if progress {
      var s: nat :| s < |fast| && Waiting(fast, slow, s) != 0;
      assert length[s] > rounds;
    } else if largest > 0 {
      var s :| 0 <= s < |length| && length[s] == largest;
      assert Waiting(fast, slow, s) == 0;
    }
  }

  lemma Finish(list: seq<Decision>, out: seq<Decision>, shards: nat, fast: seq<seq<Decision>>,
      slow: seq<seq<Decision>>, length: seq<nat>, largest: nat)
    requires Balanced(list, out, shards, fast, slow) && |length| == |fast| && Longest(length, largest)
    requires Served(length, fast, slow, largest + 1, 0)
    ensures shards > 0 && forall s: nat :: s < shards ==> OfShard(out, shards, s, |out|) == Due(list, shards, s)
    ensures multiset(out) == multiset(list)
  {
    forall s: nat | s < shards
      ensures OfShard(out, shards, s, |out|) == Due(list, shards, s)
    {
      assert Waiting(fast, slow, s) == 0;
    }
    DueIsAll(list, out, shards);
  }
}
