/** What all models share. */
module Basics {

  /** Strings of which only equality matters. */
  type Token(==, !new)

  datatype Option<+T> = None | Some(value: T)

  /** An identifier; the empty string is none. */
  datatype Id = Empty | Named(token: Token)

  lemma Smaller<T>(a: set<T>, b: set<T>)
    requires a <= b
    ensures |a| <= |b|
  {
    assert b == a + (b - a);
  }

  /** The numbers below `n`. */
  function Upto(n: nat): (r: seq<nat>)
    ensures |r| == n && forall i :: 0 <= i < n ==> r[i] == i
  {
    seq(n, i requires 0 <= i < n => i)
  }

  lemma {:induction false} DistinctCount<T>(list: seq<T>, all: set<T>)
    requires (forall x :: x in list <==> x in all) && forall p, r :: 0 <= p < r < |list| ==> list[p] != list[r]
    ensures |list| == |all|
  {
    if list == [] {
      assert all == {};
    } else {
      var n := |list| - 1;
      assert forall x :: x in list[..n] <==> x in all - {list[n]};
      DistinctCount(list[..n], all - {list[n]});
    }
  }

  /** A subset of the same size is the whole set. */
  lemma FullSubset<T>(a: set<T>, b: set<T>)
    requires a <= b && |a| >= |b|
    ensures a == b
  {
    assert b == a + (b - a);
  }
}
