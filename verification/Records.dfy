/** Ordered bags of secrets, some of which belong to Gitway. All three operating-system
    keystores are such bags; what differs is how an entry names its key. */
module Records {
  import opened Wrappers

  /** A stored secret: UTF-8 text, or bytes that are not. */
  datatype Secret = Text(text: string) | Binary

  /** What one entry means to Gitway: the key fingerprint it is filed under, if it is ours. */
  datatype Slot = Slot(owner: Option<string>, secret: Secret)

  /** The secrets a bag holds for one key, the one a lookup finds in front. */
  type Queue = seq<Secret>

  function Held<T>(slot: T -> Slot, xs: seq<T>, name: string): Queue {
    if xs == [] then []
    else
      var rest := Held(slot, xs[1..], name);
      if slot(xs[0]).owner == Some(name) then [slot(xs[0]).secret] + rest else rest
  }

  function Rest(q: Queue): Queue {
    if q == [] then [] else q[1..]
  }

  function Find<T>(xs: seq<T>, p: T -> bool): Option<T> {
    if xs == [] then None else if p(xs[0]) then Some(xs[0]) else Find(xs[1..], p)
  }

  function Drop<T>(xs: seq<T>, p: T -> bool): seq<T> {
    if xs == [] then [] else if p(xs[0]) then Drop(xs[1..], p) else [xs[0]] + Drop(xs[1..], p)
  }

  function DropFirst<T>(xs: seq<T>, p: T -> bool): seq<T> {
    if xs == [] then [] else if p(xs[0]) then xs[1..] else [xs[0]] + DropFirst(xs[1..], p)
  }

  /** The keys of our entries, one per entry, in order. */
  function Owners<T>(slot: T -> Slot, xs: seq<T>): seq<string> {
    if xs == [] then []
    else
      var o, rest := slot(xs[0]).owner, Owners(slot, xs[1..]);
      if o.Some? then [o.value] + rest else rest
  }

  /** The entries of other applications, in order. */
  function Foreign<T>(slot: T -> Slot, xs: seq<T>): seq<T> {
    if xs == [] then []
    else
      var rest := Foreign(slot, xs[1..]);
      if slot(xs[0]).owner.None? then [xs[0]] + rest else rest
  }

  /** No key has more than one entry. */
  ghost predicate Unique<T>(slot: T -> Slot, xs: seq<T>) {
    forall name: string :: |Held(slot, xs, name)| <= 1
  }

  /** Nothing but the entries of one key differs. */
  ghost predicate OnlyKey<T>(slot: T -> Slot, xs: seq<T>, ys: seq<T>, name: string) {
    && Foreign(slot, ys) == Foreign(slot, xs)
    && forall n: string :: n != name ==> Held(slot, ys, n) == Held(slot, xs, n)
  }

  /** p recognises exactly our entries for one key. */
  ghost predicate Selects<T>(slot: T -> Slot, xs: seq<T>, p: T -> bool, name: string) {
    forall x :: x in xs ==> (p(x) <==> slot(x).owner == Some(name))
  }

  lemma Uncons<T>(slot: T -> Slot, x: T, rest: seq<T>)
    ensures forall n: string :: Held(slot, [x] + rest, n) ==
              if slot(x).owner == Some(n) then [slot(x).secret] + Held(slot, rest, n) else Held(slot, rest, n)
    ensures Owners(slot, [x] + rest) ==
            if slot(x).owner.Some? then [slot(x).owner.value] + Owners(slot, rest) else Owners(slot, rest)
    ensures Foreign(slot, [x] + rest) ==
            if slot(x).owner.None? then [x] + Foreign(slot, rest) else Foreign(slot, rest)
  {
    assert ([x] + rest)[1..] == rest;
  }

  /** A key is listed once per entry it has. */
  lemma {:induction false} ListedPerEntry<T>(slot: T -> Slot, xs: seq<T>, name: string)
    ensures multiset(Owners(slot, xs))[name] == |Held(slot, xs, name)|
  {
    if xs != [] {
      ListedPerEntry(slot, xs[1..], name);
    }
  }

  lemma {:induction false} FindIsFront<T>(slot: T -> Slot, xs: seq<T>, p: T -> bool, name: string)
    requires Selects(slot, xs, p, name)
    ensures Find(xs, p).Some? <==> Held(slot, xs, name) != []
    ensures Find(xs, p).Some? ==> slot(Find(xs, p).value).secret == Held(slot, xs, name)[0]
  {
    if xs != [] {
      assert xs[0] in xs;
      FindIsFront(slot, xs[1..], p, name);
    }
  }

  /** Dropping every entry of a key removes the key and nothing else. */
  lemma {:induction false} DropIsRemoval<T>(slot: T -> Slot, xs: seq<T>, p: T -> bool, name: string)
    requires Selects(slot, xs, p, name)
    ensures Held(slot, Drop(xs, p), name) == []
    ensures OnlyKey(slot, xs, Drop(xs, p), name)
  {
    if xs != [] {
      var x, tail := xs[0], xs[1..];
      assert x in xs;
      DropIsRemoval(slot, tail, p, name);
      if !p(x) {
        Uncons(slot, x, Drop(tail, p));
      }
    }
  }

  /** Dropping the first entry of a key takes its front and nothing else. */
  lemma {:induction false} DropFirstIsRest<T>(slot: T -> Slot, xs: seq<T>, p: T -> bool, name: string)
    requires Selects(slot, xs, p, name)
    ensures Held(slot, DropFirst(xs, p), name) == Rest(Held(slot, xs, name))
    ensures OnlyKey(slot, xs, DropFirst(xs, p), name)
  {
    if xs != [] {
      var x, tail := xs[0], xs[1..];
      assert x in xs;
      if !p(x) {
        DropFirstIsRest(slot, tail, p, name);
        Uncons(slot, x, DropFirst(tail, p));
      }
    }
  }

  /** A new entry goes behind those its key already has. */
  lemma {:induction false} AppendJoinsBack<T>(slot: T -> Slot, xs: seq<T>, x: T, name: string)
    requires slot(x).owner == Some(name)
    ensures Held(slot, xs + [x], name) == Held(slot, xs, name) + [slot(x).secret]
    ensures OnlyKey(slot, xs, xs + [x], name)
    ensures Owners(slot, xs + [x]) == Owners(slot, xs) + [name]
  {
    if xs == [] {
      assert xs + [x] == [x];
    } else {
      AppendJoinsBack(slot, xs[1..], x, name);
      assert (xs + [x])[1..] == xs[1..] + [x];
    }
  }

  lemma {:induction false} DropIsSubset<T>(xs: seq<T>, p: T -> bool)
    ensures forall x :: x in Drop(xs, p) ==> x in xs
  {
    if xs != [] {
      DropIsSubset(xs[1..], p);
    }
  }
}
