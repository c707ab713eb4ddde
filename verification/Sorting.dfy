/** Sorting by an integer key, as the libraries of the modelled programs do it. */
module Sorting {

  predicate Ordered<T>(key: T -> int, xs: seq<T>) {
    forall i, j | 0 <= i < j < |xs| :: key(xs[i]) <= key(xs[j])
  }

  /** Puts `x` before the first element with a key at least as large. */
  function Place<T>(key: T -> int, x: T, xs: seq<T>): (r: seq<T>)
    requires Ordered(key, xs)
    ensures Ordered(key, r) && multiset(r) == multiset(xs) + multiset{x}
    ensures r != [] && (r[0] == x || (xs != [] && r[0] == xs[0]))
  {
    if xs == [] then [x]
    else if key(x) <= key(xs[0]) then
      assert multiset([x] + xs) == multiset(xs) + multiset{x};
      [x] + xs
    else
      var rest := Place(key, x, xs[1..]);
      PlacedAbove(key, x, xs, rest);
      [xs[0]] + rest
  }

  lemma {:induction false} PlacedAbove<T>(key: T -> int, x: T, xs: seq<T>, rest: seq<T>)
    requires Ordered(key, xs) && xs != [] && key(xs[0]) < key(x) && Ordered(key, rest)
    requires multiset(rest) == multiset(xs[1..]) + multiset{x}
    ensures Ordered(key, [xs[0]] + rest) && multiset([xs[0]] + rest) == multiset(xs) + multiset{x}
  {
    forall i | 0 <= i < |rest|
      ensures key(xs[0]) <= key(rest[i])
    {
      assert rest[i] in multiset(rest);
      assert rest[i] == x || rest[i] in xs[1..];
    }
    assert xs == [xs[0]] + xs[1..];
    assert multiset([xs[0]] + rest) == multiset{xs[0]} + multiset(rest);
  }

  /** Stable: elements with one key keep their order. */
  function Sort<T>(key: T -> int, xs: seq<T>): (r: seq<T>)
    ensures Ordered(key, r) && multiset(r) == multiset(xs) && |r| == |xs|
  {
    if xs == [] then []
    else
      assert xs == [xs[0]] + xs[1..];
      Place(key, xs[0], Sort(key, xs[1..]))
  }

  ghost predicate Identifies<T>(key: T -> int, xs: seq<T>) {
    forall x, y | x in xs && y in xs && key(x) == key(y) :: x == y
  }

  /** If keys identify elements, a multiset has only one ordered list. */
  lemma {:induction false} OrderedIsUnique<T>(key: T -> int, a: seq<T>, b: seq<T>)
    requires Ordered(key, a) && Ordered(key, b) && multiset(a) == multiset(b)
    requires Identifies(key, a)
    ensures a == b
  {
    SameLength(a, b);
    if a != [] {
      SameHead(key, a, b);
      SameTail(a, b);
      TailOrdered(key, a);
      TailOrdered(key, b);
      OrderedIsUnique(key, a[1..], b[1..]);
      HeadAndTail(a, b);
    }
  }

  lemma {:induction false} SameLength<T>(a: seq<T>, b: seq<T>)
    requires multiset(a) == multiset(b)
    ensures |a| == |b|
  {
    assert |multiset(a)| == |a| && |multiset(b)| == |b|;
  }

  lemma {:induction false} SameTail<T>(a: seq<T>, b: seq<T>)
    requires multiset(a) == multiset(b) && a != [] && b != [] && a[0] == b[0]
    ensures multiset(a[1..]) == multiset(b[1..])
  {
    assert a == [a[0]] + a[1..] && b == [b[0]] + b[1..];
    assert multiset(a[1..]) == multiset(a) - multiset{a[0]};
    assert multiset(b[1..]) == multiset(b) - multiset{b[0]};
  }

  lemma {:induction false} HeadAndTail<T>(a: seq<T>, b: seq<T>)
    requires a != [] && b != [] && a[0] == b[0] && a[1..] == b[1..]
    ensures a == b
  {
    assert a == [a[0]] + a[1..] && b == [b[0]] + b[1..];
  }

  lemma {:induction false} TailOrdered<T>(key: T -> int, a: seq<T>)
    requires a != [] && Ordered(key, a)
    ensures Ordered(key, a[1..]) && (Identifies(key, a) ==> Identifies(key, a[1..]))
  {
    assert forall x | x in a[1..] :: x in a;
  }

  lemma {:induction false} SameHead<T>(key: T -> int, a: seq<T>, b: seq<T>)
    requires Ordered(key, a) && Ordered(key, b) && multiset(a) == multiset(b) && a != []
    requires Identifies(key, a)
    ensures b != [] && a[0] == b[0]
  {
    assert a[0] in multiset(b);
    assert b[0] in multiset(a);
    assert a[0] in b && b[0] in a;
  }
}
