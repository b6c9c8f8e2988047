/** Regrouping of sequence concatenations. */
module Sequences {
  lemma Regroup3<T>(a: seq<T>, b: seq<T>, c: seq<T>)
    ensures a + b + c == a + (b + c)
  {
  }

  lemma Regroup4<T>(a: seq<T>, b: seq<T>, c: seq<T>, d: seq<T>)
    ensures a + b + c + d == a + (b + (c + d)) == a + (b + c) + d
  {
  }

  lemma DropFront<T>(a: seq<T>, b: seq<T>)
    ensures (a + b)[|a|..] == b
  {
  }

  lemma SplitAt<T>(a: seq<T>, k: nat)
    requires k <= |a|
    ensures a[..k] + a[k..] == a
  {
  }

  lemma PrefixOfTail<T>(a: seq<T>, k: nat, n: nat)
    requires k + n <= |a|
    ensures a[..k] + a[k..][..n] == a[..k + n]
    ensures k + n < |a| ==> a[k..][n] == a[k + n]
  {
  }
}
