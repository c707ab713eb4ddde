/** Choosing from sets, which the modelled programs do in an order they leave open. */
module SetChoice {

  ghost function AnElement<T>(s: set<T>): (x: T)
    requires s != {}
    ensures x in s
  {
    var x :| x in s; x
  }

  /** Some element: callers may not rely on which. */
  method Pick<T>(s: set<T>) returns (x: T)
    requires s != {}
    ensures x in s
  {
    x :| x in s;
  }

  lemma {:induction false} DistinctFit<T>(p: seq<T>, s: set<T>)
    requires forall i | 0 <= i < |p| :: p[i] in s
    requires forall i, j | 0 <= i < j < |p| :: p[i] != p[j]
    ensures |p| <= |s|
  {
    if p != [] {
      DistinctFit(p[1..], s - {p[0]});
    }
  }

  lemma {:induction false} SubsetSize<T>(a: set<T>, b: set<T>)
    ensures a < b ==> |a| < |b|
    ensures a <= b ==> |a| <= |b|
  {
    if a <= b {
      assert b == a + (b - a);
      assert a < b ==> b - a != {};
    }
  }

  lemma {:induction false} OnlyElement<T>(s: set<T>, x: T)
    requires |s| == 1 && x in s
    ensures s == {x}
  {
    assert |s - {x}| == 0;
  }

  lemma {:induction false} PlusAssociative<K, V>(a: map<K, V>, b: map<K, V>, c: map<K, V>)
    ensures (a + b) + c == a + (b + c)
  {
  }

  lemma {:induction false} PlusOne<K, V>(a: map<K, V>, b: map<K, V>, k: K, v: V)
    ensures a + (b + map[k := v]) == (a + b)[k := v]
  {
  }
}
