/** Which integers the computed ranges hold, said of sets of integers instead of interval lists. */
module RangeMeaning {
  import opened Options
  import opened Schema
  import opened Intervals
  import opened IntRanges

  /** A constant holds itself, a known dependency its value, and a reference to a field what the field
      holds; anything else holds nothing. */
  lemma {:induction false} ValRangesHold(d: Depth, deps: map<string, int>, r: Record, v: ValOrRef<int>, limit: nat, x: int)
    requires Layered(d, r) && Below(d, r, v, limit)
    ensures Covers(ValRanges(d, deps, r, v, limit), x) <==>
            match v
            case Val(y) => x == y
            case Reference(ref) =>
              if ref.name in deps then x == deps[ref.name]
              else FindField(r.fields, ref.name).Some? && Covers(PossibleRanges(d, deps, r, FindField(r.fields, ref.name).value), x)
  {
    match v
    case Val(y) => OneInterval(Interval(y, y));
    case Reference(ref) =>
      if ref.name in deps { OneInterval(Interval(deps[ref.name], deps[ref.name])); }
  }

  /** Some integer at most `x` is in the set, or nothing is. */
  ghost predicate From(rs: seq<Interval>, x: int) {
    rs == [] || exists lo :: lo <= x && Covers(rs, lo)
  }

  ghost predicate UpTo(rs: seq<Interval>, x: int) {
    rs == [] || exists hi :: x <= hi && Covers(rs, hi)
  }

  lemma {:induction false} FromFirst(rs: seq<Interval>, x: int)
    requires Canonical(rs) && rs != []
    ensures From(rs, x) <==> rs[0].lo <= x
  {
    FirstIsLeast(rs, x);
    if lo :| lo <= x && Covers(rs, lo) { FirstIsLeast(rs, lo); }
  }

  lemma {:induction false} UpToLast(rs: seq<Interval>, x: int)
    requires Canonical(rs) && rs != []
    ensures UpTo(rs, x) <==> x <= rs[|rs| - 1].hi
  {
    assert Inside(rs[|rs| - 1].hi, rs[|rs| - 1]);
    assert Covers(rs, rs[|rs| - 1].hi);
    if hi :| x <= hi && Covers(rs, hi) { CoversBetween(rs, hi); }
  }

  /** A range holds what lies between some integer of its start and some integer of its end, where an end
      without any is the least or greatest integer of the type. */
  lemma {:induction false} NumRangesHold(d: Depth, deps: map<string, int>, r: Record, num: NumValue<int>, limit: nat, x: int)
    requires Layered(d, r) && NumBelow(d, r, num, limit)
    ensures Covers(NumRanges(d, deps, r, num, limit), x) <==>
            match num
            case Single(v) => Covers(ValRanges(d, deps, r, v, limit), x)
            case Range(start, end) =>
              var starts, ends := ValRanges(d, deps, r, start, limit), ValRanges(d, deps, r, end, limit);
              && From(starts, x) && UpTo(ends, x) && (starts == [] ==> INT_MIN <= x) && (ends == [] ==> x <= INT_MAX)
  {
    if num.Range? {
      var starts, ends := ValRanges(d, deps, r, num.start, limit), ValRanges(d, deps, r, num.end, limit);
      if starts != [] { FromFirst(starts, x); }
      if ends != [] { UpToLast(ends, x); }
      var low := if starts == [] then INT_MIN else starts[0].lo;
      var high := if ends == [] then INT_MAX else ends[|ends| - 1].hi;
      OneInterval(Interval(low, high));
    }
  }

  /** A field holds what its integer entries hold. */
  lemma {:induction false} PossibleRangesHold(d: Depth, deps: map<string, int>, r: Record, f: Field, x: int)
    requires Layered(d, r) && f in r.fields
    ensures Covers(PossibleRanges(d, deps, r, f), x) <==>
            f.possibleValues.Some? && exists i | 0 <= i < |f.possibleValues.value| && f.possibleValues.value[i].IntValue? ::
              Covers(NumRanges(d, deps, r, f.possibleValues.value[i].num, d(f.name)), x)
  {
    if f.possibleValues.Some? { ValuesRangesAre(d, deps, r, f.possibleValues.value, d(f.name), x); }
  }

  /** The value as the analysis takes it: a constant above the type is the greatest integer of it. */
  ghost predicate TakenAs(v: ValOrRef<int>, w: ValOrRef<int>) {
    match v
    case Val(x) => w == Val(if x > INT_MAX then INT_MAX else x)
    case Reference(_) => w == v
  }

  /** A size holds the integers of its value or range that are not negative. */
  lemma {:induction false} SizeRangesHold(d: Depth, deps: map<string, int>, r: Record, size: SizeDescriptor, x: int)
    requires Layered(d, r)
    ensures var num, limit := ClampedSize(size), TopOf(d, size);
            && (size.Single? <==> num.Single?)
            && (size.Single? ==> TakenAs(size.value, num.value))
            && (size.Range? ==> TakenAs(size.start, num.start) && TakenAs(size.end, num.end))
            && NumBelow(d, r, num, limit)
            && (Covers(SizeRanges(d, deps, r, Some(size)), x) <==> x >= 0 && Covers(NumRanges(d, deps, r, num, limit), x))
  {
    NonNegativesStay(NumRanges(d, deps, r, ClampedSize(size), TopOf(d, size)), x);
  }
}
