/** Dictionaries updated from a list of dictionaries, one after the other. */
module MapOverlay {

  ghost function Overlay<K, V>(ms: seq<map<K, V>>): map<K, V> {
    if ms == [] then map[] else Overlay(ms[..|ms| - 1]) + ms[|ms| - 1]
  }

  /** Dictionaries that share a key agree on it. */
  ghost predicate Agree<K(!new), V>(ms: seq<map<K, V>>) {
    forall i, j, x | 0 <= i < |ms| && 0 <= j < |ms| && x in ms[i] && x in ms[j] :: ms[i][x] == ms[j][x]
  }

  lemma {:induction false} OverlayOneMore<K, V>(ms: seq<map<K, V>>, n: nat)
    requires n < |ms|
    ensures Overlay(ms[..n + 1]) == Overlay(ms[..n]) + ms[n]
  {
    assert ms[..n + 1][..n] == ms[..n];
  }

  lemma {:induction false} OverlayComesFrom<K, V>(ms: seq<map<K, V>>, x: K)
    requires x in Overlay(ms)
    ensures exists i :: 0 <= i < |ms| && x in ms[i] && Overlay(ms)[x] == ms[i][x]
  {
    if ms != [] {
      var n := |ms| - 1;
      if x !in ms[n] {
        OverlayComesFrom(ms[..n], x);
        var i :| 0 <= i < n && x in ms[..n][i] && Overlay(ms[..n])[x] == ms[..n][i][x];
        assert x in ms[i] && Overlay(ms)[x] == ms[i][x];
      }
    }
  }

  /** When the dictionaries agree, nothing is lost by overwriting. */
  lemma {:induction false} OverlayHas<K(!new), V>(ms: seq<map<K, V>>, i: nat, x: K)
    requires Agree(ms) && i < |ms| && x in ms[i]
    ensures x in Overlay(ms) && Overlay(ms)[x] == ms[i][x]
  {
    OverlayKeepsKey(ms, i, x);
    OverlayComesFrom(ms, x);
  }

  lemma {:induction false} OverlayKeepsKey<K, V>(ms: seq<map<K, V>>, i: nat, x: K)
    requires i < |ms| && x in ms[i]
    ensures x in Overlay(ms)
  {
    if i < |ms| - 1 {
      OverlayKeepsKey(ms[..|ms| - 1], i, x);
    }
  }

  lemma {:induction false} OverlayAvoids<K, V>(ms: seq<map<K, V>>, x: K)
    requires forall i | 0 <= i < |ms| :: x !in ms[i]
    ensures x !in Overlay(ms)
  {
    if x in Overlay(ms) {
      OverlayComesFrom(ms, x);
    }
  }

  ghost predicate InOne<K, V>(ms: seq<map<K, V>>, x: K) {
    exists i :: 0 <= i < |ms| && x in ms[i]
  }

  ghost predicate PartOf<K, V>(m: map<K, V>, all: map<K, V>) {
    forall x | x in m :: x in all && all[x] == m[x]
  }

  /** Parts of one dictionary that cover it are put together to that dictionary. */
  lemma {:induction false} OverlayIs<K(!new), V>(ms: seq<map<K, V>>, all: map<K, V>)
    requires forall i {:trigger PartOf(ms[i], all)} | 0 <= i < |ms| :: PartOf(ms[i], all)
    requires forall x {:trigger InOne(ms, x)} | x in all :: InOne(ms, x)
    ensures Overlay(ms) == all
  {
    forall x | x in Overlay(ms)
      ensures x in all && all[x] == Overlay(ms)[x]
    {
      OverlayComesFrom(ms, x);
      var i :| 0 <= i < |ms| && x in ms[i] && Overlay(ms)[x] == ms[i][x];
      assert PartOf(ms[i], all);
    }
    forall x | x in all
      ensures x in Overlay(ms)
    {
      assert InOne(ms, x);
      var i :| 0 <= i < |ms| && x in ms[i];
      OverlayKeepsKey(ms, i, x);
    }
  }
}
