/** Facts about concatenation and slices that the solver is best told one at a time. */
module Sequences {
  lemma Assoc<T>(a: seq<T>, b: seq<T>, c: seq<T>)
    ensures a + (b + c) == (a + b) + c
  {
  }

  lemma EmptyLeft<T>(a: seq<T>)
    ensures [] + a == a
  {
  }

  lemma EmptyRight<T>(a: seq<T>)
    ensures a + [] == a
  {
  }

  lemma Split<T>(a: seq<T>, n: nat)
    requires n <= |a|
    ensures a == a[..n] + a[n..]
  {
  }

  lemma Uncons<T>(a: seq<T>)
    requires a != []
    ensures a == [a[0]] + a[1..]
  {
  }

  lemma Unsnoc<T>(a: seq<T>)
    requires a != []
    ensures a == a[..|a| - 1] + [a[|a| - 1]]
  {
  }

  lemma Joined<T>(a: seq<T>, b: seq<T>)
    ensures (a + b)[..|a|] == a && (a + b)[|a|..] == b
  {
  }

  lemma PrefixThrough<T>(a: seq<T>, e: T, b: seq<T>)
    requires a + [e] <= b
    ensures a <= b && |a| < |b| && b[|a|] == e
  {
    assert (a + [e])[|a|] == e;
  }

  lemma DropDrop<T>(p: seq<T>, i: nat, a: nat)
    requires i + a <= |p|
    ensures p[i..][a..] == p[i + a..]
  {
  }

  lemma DropTake<T>(p: seq<T>, i: nat, n: nat)
    requires i + n <= |p|
    ensures p[i..][..n] == p[i..i + n]
  {
  }
}
