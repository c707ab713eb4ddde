/** Sets of integers kept as sorted lists of closed intervals, where neighbours that touch are
    one interval: what the range-set library does. */
module Intervals {

  datatype Interval = Interval(lo: int, hi: int)

  predicate Inside(x: int, r: Interval) {
    r.lo <= x <= r.hi
  }

  /** `x` lies in one of the intervals. */
  ghost predicate Covers(rs: seq<Interval>, x: int) {
    exists i :: 0 <= i < |rs| && Inside(x, rs[i])
  }

  /** Nonempty intervals in order, with a gap of at least one integer between neighbours. */
  predicate Canonical(rs: seq<Interval>) {
    && (forall i | 0 <= i < |rs| :: rs[i].lo <= rs[i].hi)
    && forall i, j | 0 <= i < j < |rs| :: rs[i].hi + 1 < rs[j].lo
  }

  function Min(a: int, b: int): int { if a < b then a else b }

  function Max(a: int, b: int): int { if a < b then b else a }

  /** Adds an interval, swallowing whatever it overlaps or touches. */
  function Insert(rs: seq<Interval>, r: Interval): (s: seq<Interval>)
    requires Canonical(rs) && r.lo <= r.hi
    ensures Canonical(s)
    ensures forall x :: Covers(s, x) <==> Covers(rs, x) || Inside(x, r)
    ensures s != [] && (rs != [] ==> s[0].lo == Min(rs[0].lo, r.lo)) && (rs == [] ==> s == [r])
    decreases |rs|
  {
    if rs == [] then
      OneInterval(r);
      [r]
    else if r.hi + 1 < rs[0].lo then
      CoversCons(r, rs);
      [r] + rs
    else if rs[0].hi + 1 < r.lo then
      var rest := Insert(rs[1..], r);
      assert rs == [rs[0]] + rs[1..];
      CoversCons(rs[0], rs[1..]);
      CoversCons(rs[0], rest);
      [rs[0]] + rest
    else
      assert rs == [rs[0]] + rs[1..];
      CoversCons(rs[0], rs[1..]);
      Insert(rs[1..], Interval(Min(rs[0].lo, r.lo), Max(rs[0].hi, r.hi)))
  }

  lemma {:induction false} OneInterval(r: Interval)
    ensures forall x :: Covers([r], x) <==> Inside(x, r)
  {
    forall x | Inside(x, r) ensures Covers([r], x) {
      assert Inside(x, [r][0]);
    }
  }

  lemma {:induction false} CoversCons(r: Interval, rs: seq<Interval>)
    ensures forall x :: Covers([r] + rs, x) <==> Inside(x, r) || Covers(rs, x)
  {
    var all := [r] + rs;
    forall x | Inside(x, r) || Covers(rs, x)
      ensures Covers(all, x)
    {
      if Inside(x, r) {
        assert Inside(x, all[0]);
      } else {
        var i :| 0 <= i < |rs| && Inside(x, rs[i]);
        assert Inside(x, all[i + 1]);
      }
    }
    forall x | Covers(all, x)
      ensures Inside(x, r) || Covers(rs, x)
    {
      var i :| 0 <= i < |all| && Inside(x, all[i]);
      if i > 0 { assert Inside(x, rs[i - 1]); }
    }
  }

  /** A set of integers has only one canonical list. */
  lemma {:induction false} CanonicalIsUnique(rs: seq<Interval>, ss: seq<Interval>)
    requires Canonical(rs) && Canonical(ss) && forall x :: Covers(rs, x) <==> Covers(ss, x)
    ensures rs == ss
    decreases |rs|
  {
    if rs == [] || ss == [] {
      if rs != [] { assert Inside(rs[0].lo, rs[0]); assert Covers(rs, rs[0].lo); }
      if ss != [] { assert Inside(ss[0].lo, ss[0]); assert Covers(ss, ss[0].lo); }
    } else {
      SameFirst(rs, ss);
      assert rs == [rs[0]] + rs[1..] && ss == [ss[0]] + ss[1..];
      CoversCons(rs[0], rs[1..]);
      CoversCons(ss[0], ss[1..]);
      forall x
        ensures Covers(rs[1..], x) <==> Covers(ss[1..], x)
      {
        LaterOutside(rs, x);
        LaterOutside(ss, x);
      }
      CanonicalIsUnique(rs[1..], ss[1..]);
    }
  }

  lemma {:induction false} LaterOutside(rs: seq<Interval>, x: int)
    requires Canonical(rs) && rs != []
    ensures Covers(rs[1..], x) ==> x > rs[0].hi + 1
  {
    if Covers(rs[1..], x) {
      var i :| 0 <= i < |rs[1..]| && Inside(x, rs[1..][i]);
      assert rs[1..][i] == rs[i + 1];
    }
  }

  lemma {:induction false} SameFirst(rs: seq<Interval>, ss: seq<Interval>)
    requires Canonical(rs) && Canonical(ss) && rs != [] && ss != []
    requires forall x :: Covers(rs, x) <==> Covers(ss, x)
    ensures rs[0] == ss[0]
  {
    FirstIsLeast(rs, ss[0].lo);
    FirstIsLeast(ss, rs[0].lo);
    FirstReaches(rs, ss);
    FirstReaches(ss, rs);
  }

  lemma {:induction false} FirstIsLeast(rs: seq<Interval>, x: int)
    requires Canonical(rs) && rs != []
    ensures Covers(rs, x) ==> rs[0].lo <= x
    ensures Covers(rs, rs[0].lo)
  {
    assert Inside(rs[0].lo, rs[0]);
    if Covers(rs, x) {
      var i :| 0 <= i < |rs| && Inside(x, rs[i]);
      assert i > 0 ==> rs[0].hi + 1 < rs[i].lo;
    }
  }

  lemma {:induction false} FirstIsMaximal(rs: seq<Interval>)
    requires Canonical(rs) && rs != []
    ensures !Covers(rs, rs[0].hi + 1)
  {
    forall i | 0 <= i < |rs|
      ensures !Inside(rs[0].hi + 1, rs[i])
    {
      if i > 0 { assert rs[0].hi + 1 < rs[i].lo; }
    }
  }

  lemma {:induction false} FirstReaches(rs: seq<Interval>, ss: seq<Interval>)
    requires Canonical(rs) && Canonical(ss) && rs != [] && ss != [] && rs[0].lo <= ss[0].lo
    requires forall x :: Covers(rs, x) <==> Covers(ss, x)
    ensures ss[0].lo <= rs[0].hi ==> ss[0].hi <= rs[0].hi
  {
    FirstIsMaximal(rs);
    assert !Covers(ss, rs[0].hi + 1);
    assert !Inside(rs[0].hi + 1, ss[0]);
  }
}
