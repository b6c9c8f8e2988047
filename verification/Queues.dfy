/** First in, first out: where the elements of a queue came from and what the elements taken
    are paid for with, over any number of steps. */
module Queues {
  import opened Wrappers

  function Back<T>(q: seq<T>, d: nat): T
    requires d < |q|
  {
    q[|q| - 1 - d]
  }

  function Joining<T>(put: Option<T>): seq<T> {
    if put.Some? then [put.value] else []
  }

  /** One step: the front may leave, and one element may join at the back. */
  ghost predicate Moves<T>(q: seq<T>, put: Option<T>, q': seq<T>) {
    || q' == q + Joining(put)
    || (q != [] && q' == q[1..] + Joining(put))
  }

  /** A queue's life: its contents before each step, and what the step puts in. */
  datatype Life<!T> = Life(contents: nat -> seq<T>, puts: nat -> Option<T>)

  ghost predicate Moving<T>(l: Life<T>, n: nat) {
    forall k: nat :: k < n ==> Moves(l.contents(k), l.puts(k), l.contents(k + 1))
  }

  /** How many elements were put in from step i on, before step j. */
  function Puts<T>(l: Life<T>, i: nat, j: nat): nat
    requires i <= j
  {
    if i == j then 0 else Puts(l, i, j - 1) + if l.puts(j - 1).Some? then 1 else 0
  }

  /** A step leaves distances from the back alone, or adds one to each. */
  lemma BackMoves<T>(q: seq<T>, put: Option<T>, q': seq<T>, d: nat)
    requires Moves(q, put, q') && d < |q'|
    ensures put.None? ==> d < |q| && Back(q', d) == Back(q, d)
    ensures put.Some? && d == 0 ==> Back(q', d) == put.value
    ensures put.Some? && d > 0 ==> d - 1 < |q| && Back(q', d) == Back(q, d - 1)
  {
  }

  /** The element at distance d from the back was put in by the step that exactly d others
      followed, or was there from the start, that much nearer the back. */
  lemma {:induction false} Origin<T>(l: Life<T>, n: nat, d: nat) returns (i: nat)
    requires Moving(l, n) && d < |l.contents(n)|
    ensures d < Puts(l, 0, n) ==>
              i < n && l.puts(i) == Some(Back(l.contents(n), d)) && Puts(l, i + 1, n) == d
    ensures d >= Puts(l, 0, n) ==>
              var e := d - Puts(l, 0, n);
              e < |l.contents(0)| && Back(l.contents(n), d) == Back(l.contents(0), e)
  {
    hide Moves, Back;
    i := 0;
    if n > 0 {
      var put := l.puts(n - 1);
      BackMoves(l.contents(n - 1), put, l.contents(n), d);
      if put.None? {
        i := Origin(l, n - 1, d);
      } else if d == 0 {
        i := n - 1;
      } else {
        i := Origin(l, n - 1, d - 1);
      }
    }
  }

  /** The steps from i on, before j, that a property holds of. */
  function Count(p: nat -> bool, i: nat, j: nat): nat
    requires i <= j
  {
    if i == j then 0 else Count(p, i, j - 1) + if p(j - 1) then 1 else 0
  }

  /** Steps that take an element and put none in are paid for by the elements there at first and
      those put in. */
  lemma {:induction false} Balance<T>(l: Life<T>, takes: nat -> bool, i: nat, j: nat)
    requires i <= j && Moving(l, j)
    requires forall k: nat :: i <= k < j && takes(k) ==> |l.contents(k + 1)| < |l.contents(k)|
    ensures Count(takes, i, j) + |l.contents(j)| <= |l.contents(i)| + Puts(l, i, j)
  {
    if i < j {
      Balance(l, takes, i, j - 1);
      assert Moves(l.contents(j - 1), l.puts(j - 1), l.contents(j));
    }
  }

  lemma {:induction false} PutsSplit<T>(l: Life<T>, i: nat, j: nat, k: nat)
    requires i <= j <= k
    ensures Puts(l, i, k) == Puts(l, i, j) + Puts(l, j, k)
  {
    if j < k {
      PutsSplit(l, i, j, k - 1);
    }
  }

  /** If anything was put in, some step did. */
  lemma {:induction false} SomePut<T>(l: Life<T>, i: nat, j: nat) returns (k: nat)
    requires i <= j && Puts(l, i, j) > 0
    ensures i <= k < j && l.puts(k).Some?
  {
    if l.puts(j - 1).Some? {
      k := j - 1;
    } else {
      k := SomePut(l, i, j - 1);
    }
  }

  /** If nothing was put in, no step did, and what is left is the end of what was there. */
  lemma {:induction false} NonePut<T>(l: Life<T>, i: nat, j: nat)
    requires i <= j && Moving(l, j) && Puts(l, i, j) == 0
    ensures forall k: nat :: i <= k < j ==> l.puts(k).None?
    ensures |l.contents(j)| <= |l.contents(i)|
    ensures l.contents(j) == l.contents(i)[|l.contents(i)| - |l.contents(j)|..]
  {
    if i < j {
      NonePut(l, i, j - 1);
      assert Moves(l.contents(j - 1), l.puts(j - 1), l.contents(j));
    }
  }
}
