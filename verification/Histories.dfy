/** What a transaction does, told by the list of values it reads and stores: a read shows the
    transaction's own last store of the key, or else the stored row. The executor agrees with it. */
module Histories {
  import opened Basics
  import opened Transactions

  /** The value of the last store to `k` among the first `n` operations. */
  ghost function LastPut(p: Program, h: seq<Value>, n: nat, k: Key): Option<Value>
    requires n <= |h|
  {
    if n == 0 then None
    else if p.next(h[..n - 1]).Put? && p.next(h[..n - 1]).key == k then Some(p.next(h[..n - 1]).value)
    else LastPut(p, h, n - 1, k)
  }

  /** What a read of `k` shows after `n` operations: the transaction's own last store of it, or
      else the stored row. */
  ghost function Visible(p: Program, base: Rows, at: Option<Shard>, h: seq<Value>, n: nat, k: Key): Value
    requires n <= |h|
  {
    match LastPut(p, h, n, k)
    case Some(v) => v
    case None => Look(base, Row(at, k))
  }

  /** Operation `n` is a read that shows what is visible, or a store of its value. */
  ghost predicate Performs(p: Program, base: Rows, at: Option<Shard>, h: seq<Value>, n: nat)
    requires n < |h|
  {
    match p.next(h[..n])
    case Halt(_, _) => false
    case Get(k) => h[n] == Visible(p, base, at, h, n, k)
    case Put(_, v) => h[n] == v
  }

  /** `h` lists the values read and stored, from the first operation to the end of the run. */
  ghost predicate IsHistory(p: Program, base: Rows, at: Option<Shard>, h: seq<Value>) {
    && |h| <= p.limit && (forall n :: 0 <= n < |h| ==> Performs(p, base, at, h, n))
    && (|h| == p.limit || p.next(h).Halt?)
  }

  ghost predicate Reads(p: Program, h: seq<Value>, lo: nat, k: Key) {
    exists n :: lo <= n < |h| && p.next(h[..n]) == Get(k)
  }

  /** The receipt is that of the final `Halt`, or a failure without one; the keys observed are
      those read; and every key stored to has its last store. */
  ghost predicate Tells(p: Program, h: seq<Value>, lo: nat, o: Outcome) {
    && (if |h| < p.limit && p.next(h).Halt? then o.success == p.next(h).success && o.error == p.next(h).error
      else !o.success && o.error == Blank)
    && (forall k :: k in o.observed <==> Reads(p, h, lo, k))
    && Overlaid(p, h, |h|, o.writes)
  }

  ghost predicate Overlaid(p: Program, h: seq<Value>, n: nat, overlay: Rows)
    requires n <= |h|
  {
    forall k :: (if k in overlay then Some(overlay[k]) else None) == LastPut(p, h, n, k)
  }

  lemma {:induction false} RunFollows(p: Program, base: Rows, at: Option<Shard>, h: seq<Value>, n: nat, overlay: Rows)
    requires IsHistory(p, base, at, h) && n <= |h| && Overlaid(p, h, n, overlay)
    ensures Tells(p, h, n, Run(p, base, at, h[..n], overlay))
    decreases |h| - n
  {
    hide Row; hide Look;
    if n == |h| {
      assert h[..n] == h;
    } else {
      assert Performs(p, base, at, h, n);
      var m := n + 1;
      assert h[..n] + [h[n]] == h[..m] && h[..m - 1] == h[..n];
      match p.next(h[..n])
      case Halt(_, _) => assert false;
      case Get(k) =>
        assert Overlaid(p, h, m, overlay);
        assert h[n] == if k in overlay then overlay[k] else Look(base, Row(at, k));
        RunFollows(p, base, at, h, m, overlay);
      case Put(k, v) =>
        assert Overlaid(p, h, m, overlay[k := v]);
        RunFollows(p, base, at, h, m, overlay[k := v]);
    }
  }

  /** Read your writes: whatever the program and the rows, a history decides the run. */
  lemma HistoryDecides(t: Tx, base: Rows, at: Option<Shard>, h: seq<Value>)
    requires IsHistory(t.program, base, at, h)
    ensures Tells(t.program, h, 0, Execute(t, base, at))
  {
    assert h[..0] == [];
    RunFollows(t.program, base, at, h, 0, map[]);
  }

  lemma {:induction false} Continue(p: Program, base: Rows, at: Option<Shard>, h0: seq<Value>) returns (h: seq<Value>)
    requires |h0| <= p.limit && forall n :: 0 <= n < |h0| ==> Performs(p, base, at, h0, n)
    ensures IsHistory(p, base, at, h)
    decreases p.limit - |h0|
  {
    if |h0| == p.limit || p.next(h0).Halt? {
      h := h0;
    } else {
      var k := p.next(h0).key;
      var h1 := h0 + [if p.next(h0).Put? then p.next(h0).value else Visible(p, base, at, h0, |h0|, k)];
      forall n | 0 <= n < |h1|
        ensures Performs(p, base, at, h1, n)
      {
        assert n < |h0| ==> Performs(p, base, at, h0, n);
        assert h1[..n] == h0[..n];
        forall a
          ensures LastPut(p, h1, n, a) == LastPut(p, h0, n, a)
        {
          SamePuts(p, h0, h1, n, a);
        }
        assert n == |h0| ==> h0[..n] == h0;
      }
      h := Continue(p, base, at, h1);
    }
  }

  lemma {:induction false} SamePuts(p: Program, h: seq<Value>, more: seq<Value>, n: nat, k: Key)
    requires n <= |h| && h <= more
    ensures LastPut(p, more, n, k) == LastPut(p, h, n, k)
  {
    if n > 0 {
      assert more[..n - 1] == h[..n - 1];
      SamePuts(p, h, more, n - 1, k);
    }
  }

  /** Every transaction has a history on all rows. */
  lemma HasHistory(t: Tx, base: Rows, at: Option<Shard>) returns (h: seq<Value>)
    ensures IsHistory(t.program, base, at, h) && Tells(t.program, h, 0, Execute(t, base, at))
  {
    h := Continue(t.program, base, at, []);
    HistoryDecides(t, base, at, h);
  }
}
