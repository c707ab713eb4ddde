/** Which integers a field or a size can take, as the schema library computes it
    (testlang/src/lib.rs:376-482). */
module IntRanges {
  import opened Options
  import opened Schema
  import opened Intervals
  import opened TextNumbers

  const INT_MIN: int := -0x8000_0000_0000_0000
  const INT_MAX: int := 0x7fff_ffff_ffff_ffff

  /** How deep below a field its integer references go. */
  type Depth = string -> nat

  /* Range sets: more operations */

  function InsertAll(rs: seq<Interval>, more: seq<Interval>): (s: seq<Interval>)
    requires Canonical(rs) && forall i | 0 <= i < |more| :: more[i].lo <= more[i].hi
    ensures Canonical(s)
  {
    if more == [] then rs else Insert(InsertAll(rs, more[..|more| - 1]), more[|more| - 1])
  }

  lemma {:induction false} InsertAllCovers(rs: seq<Interval>, more: seq<Interval>, x: int)
    requires Canonical(rs) && forall i | 0 <= i < |more| :: more[i].lo <= more[i].hi
    ensures Covers(InsertAll(rs, more), x) <==> Covers(rs, x) || Covers(more, x)
  {
    if more != [] {
      var init, last := more[..|more| - 1], more[|more| - 1];
      InsertAllCovers(rs, init, x);
      if Covers(init, x) {
        var i :| 0 <= i < |init| && Inside(x, init[i]);
        assert Inside(x, more[i]);
      }
      if Inside(x, last) {
        assert Inside(x, more[|more| - 1]);
      }
      if Covers(more, x) {
        var i :| 0 <= i < |more| && Inside(x, more[i]);
        if i < |init| { assert Inside(x, init[i]); }
      }
    }
  }

  /** Adding what already lies behind the rest appends it. */
  lemma {:induction false} InsertLast(rs: seq<Interval>, r: Interval)
    requires Canonical(rs + [r])
    ensures Canonical(rs) && r.lo <= r.hi && Insert(rs, r) == rs + [r]
    decreases |rs|
  {
    var all := rs + [r];
    assert all[|rs|] == r;
    forall i | 0 <= i < |rs|
      ensures rs[i].lo <= rs[i].hi && rs[i].hi + 1 < r.lo
    {
      assert all[i] == rs[i];
    }
    forall i, j | 0 <= i < j < |rs|
      ensures rs[i].hi + 1 < rs[j].lo
    {
      assert all[i] == rs[i] && all[j] == rs[j];
    }
    if rs != [] {
      assert all[1..] == rs[1..] + [r];
      forall i, j | 0 <= i < j < |all[1..]|
        ensures all[1..][i].hi + 1 < all[1..][j].lo
      {
      }
      InsertLast(rs[1..], r);
    }
  }

  /** Takes all negative integers out. */
  function WithoutNegatives(rs: seq<Interval>): (s: seq<Interval>)
    requires Canonical(rs)
    ensures Canonical(s) && forall i | 0 <= i < |s| :: 0 <= s[i].lo
    ensures s != [] ==> rs != [] && rs[0].lo <= s[0].lo
  {
    if rs == [] then []
    else if rs[0].hi < 0 then WithoutNegatives(rs[1..])
    else if rs[0].lo < 0 then [Interval(0, rs[0].hi)] + rs[1..]
    else rs
  }

  lemma {:induction false} NonNegativesStay(rs: seq<Interval>, x: int)
    requires Canonical(rs)
    ensures Covers(WithoutNegatives(rs), x) <==> Covers(rs, x) && 0 <= x
  {
    if rs != [] {
      var rest := rs[1..];
      assert rs == [rs[0]] + rest;
      CoversCons(rs[0], rest);
      if rs[0].hi < 0 {
        NonNegativesStay(rest, x);
      } else {
        LaterOutside(rs, x);
        CoversCons(Interval(0, rs[0].hi), rest);
        assert Covers(rs, x) <==> Inside(x, rs[0]) || Covers(rest, x);
        if rs[0].lo >= 0 && Covers(rs, x) { FirstIsLeast(rs, x); }
      }
    }
  }

  /* The ranges, as functions */

  /** References by name to fields of the record lie strictly below `limit`. */
  ghost predicate Below(d: Depth, r: Record, v: ValOrRef<int>, limit: nat) {
    v.Reference? && FindField(r.fields, v.ref.name).Some? ==> d(v.ref.name) < limit
  }

  ghost predicate NumBelow(d: Depth, r: Record, num: NumValue<int>, limit: nat) {
    match num
    case Single(v) => Below(d, r, v, limit)
    case Range(start, end) => Below(d, r, start, limit) && Below(d, r, end, limit)
  }

  ghost predicate ValuesBelow(d: Depth, r: Record, vs: seq<FieldValue>, limit: nat) {
    forall i | 0 <= i < |vs| && vs[i].IntValue? :: NumBelow(d, r, vs[i].num, limit)
  }

  /** Integer values of fields refer to each other without a cycle. */
  ghost predicate Layered(d: Depth, r: Record) {
    forall f | f in r.fields && f.possibleValues.Some? :: ValuesBelow(d, r, f.possibleValues.value, d(f.name))
  }

  function ValRanges(ghost d: Depth, deps: map<string, int>, r: Record, v: ValOrRef<int>, ghost limit: nat): (rs: seq<Interval>)
    requires Layered(d, r) && Below(d, r, v, limit)
    ensures Canonical(rs)
    decreases limit, 0
  {
    match v
    case Val(x) => [Interval(x, x)]
    case Reference(ref) =>
      if ref.name in deps then [Interval(deps[ref.name], deps[ref.name])]
      else match FindField(r.fields, ref.name)
           case None => []
           case Some(g) => PossibleRanges(d, deps, r, g)
  }

  function NumRanges(ghost d: Depth, deps: map<string, int>, r: Record, num: NumValue<int>, ghost limit: nat): (rs: seq<Interval>)
    requires Layered(d, r) && NumBelow(d, r, num, limit)
    ensures Canonical(rs)
    decreases limit, 1
  {
    match num
    case Single(v) => ValRanges(d, deps, r, v, limit)
    case Range(start, end) =>
      var starts := ValRanges(d, deps, r, start, limit);
      var ends := ValRanges(d, deps, r, end, limit);
      var low := if starts == [] then INT_MIN else starts[0].lo;
      var high := if ends == [] then INT_MAX else ends[|ends| - 1].hi;
      if low <= high then [Interval(low, high)] else []
  }

  function ValuesRanges(ghost d: Depth, deps: map<string, int>, r: Record, vs: seq<FieldValue>, ghost limit: nat): (rs: seq<Interval>)
    requires Layered(d, r) && ValuesBelow(d, r, vs, limit)
    ensures Canonical(rs)
    decreases limit, 2, |vs|
  {
    if vs == [] then []
    else
      var last := vs[|vs| - 1];
      var before := ValuesRanges(d, deps, r, vs[..|vs| - 1], limit);
      if last.IntValue? then InsertAll(before, NumRanges(d, deps, r, last.num, limit)) else before
  }

  function PossibleRanges(ghost d: Depth, deps: map<string, int>, r: Record, f: Field): (rs: seq<Interval>)
    requires Layered(d, r) && f in r.fields
    ensures Canonical(rs)
    decreases d(f.name), 3
  {
    if f.possibleValues.None? then [] else ValuesRanges(d, deps, r, f.possibleValues.value, d(f.name))
  }

  function Clamped(v: ValOrRef<int>): ValOrRef<int> {
    if v.Val? && v.value > INT_MAX then Val(INT_MAX) else v
  }

  function ClampedSize(size: SizeDescriptor): NumValue<int> {
    match size
    case Single(v) => Single(Clamped(v))
    case Range(start, end) => Range(Clamped(start), Clamped(end))
  }

  ghost function Top(d: Depth, v: ValOrRef<int>): nat {
    if v.Reference? then d(v.ref.name) + 1 else 0
  }

  /** A limit above every reference of a size. */
  ghost function TopOf(d: Depth, size: SizeDescriptor): nat {
    match size
    case Single(v) => Top(d, v)
    case Range(start, end) => Top(d, start) + Top(d, end)
  }

  function SizeRanges(ghost d: Depth, deps: map<string, int>, r: Record, size: Option<SizeDescriptor>): (rs: seq<Interval>)
    requires Layered(d, r)
    ensures Canonical(rs)
  {
    if size.None? then []
    else WithoutNegatives(NumRanges(d, deps, r, ClampedSize(size.value), TopOf(d, size.value)))
  }

  /* The ranges, as the program computes them */

  method GetIntValOrRefRanges(ghost d: Depth, r: Record, v: ValOrRef<int>, deps: map<string, int>, ghost limit: nat) returns (ranges: seq<Interval>)
    requires Layered(d, r) && Below(d, r, v, limit)
    ensures ranges == ValRanges(d, deps, r, v, limit)
    decreases limit, 0
  {
    ranges := [];
    match v
    case Val(x) => ranges := Insert(ranges, Interval(x, x));
    case Reference(ref) =>
      if ref.name in deps {
        ranges := Insert(ranges, Interval(deps[ref.name], deps[ref.name]));
      } else {
        var field := FindField(r.fields, ref.name);
        if field.Some? {
          ranges := GetPossibleIntRanges(d, r, field.value, deps);
        }
      }
  }

  method GetIntNumValueRanges(ghost d: Depth, r: Record, num: NumValue<int>, deps: map<string, int>, ghost limit: nat) returns (ranges: seq<Interval>)
    requires Layered(d, r) && NumBelow(d, r, num, limit)
    ensures ranges == NumRanges(d, deps, r, num, limit)
    decreases limit, 1
  {
    match num
    case Single(v) => ranges := GetIntValOrRefRanges(d, r, v, deps, limit);
    case Range(first, last) =>
      var starts := GetIntValOrRefRanges(d, r, first, deps, limit);
      var ends := GetIntValOrRefRanges(d, r, last, deps, limit);
      var start := if starts == [] then INT_MIN else starts[0].lo;
      var end := if ends == [] then INT_MAX else ends[|ends| - 1].hi;
      ranges := [];
      if start <= end {
        ranges := Insert(ranges, Interval(start, end));
      }
  }

  method InsertRanges(ranges: seq<Interval>, more: seq<Interval>) returns (all: seq<Interval>)
    requires Canonical(ranges) && Canonical(more)
    ensures all == InsertAll(ranges, more)
  {
    all := ranges;
    for j := 0 to |more|
      invariant all == InsertAll(ranges, more[..j])
    {
      assert more[..j + 1][..j] == more[..j];
      all := Insert(all, more[j]);
    }
    assert more[..|more|] == more;
  }

  method GetPossibleIntRanges(ghost d: Depth, r: Record, f: Field, deps: map<string, int>) returns (ranges: seq<Interval>)
    requires Layered(d, r) && f in r.fields
    ensures ranges == PossibleRanges(d, deps, r, f)
    decreases d(f.name), 3
  {
    ranges := [];
    if f.possibleValues.None? {
      return;
    }
    var values := f.possibleValues.value;
    for i := 0 to |values|
      invariant ValuesBelow(d, r, values[..i], d(f.name))
      invariant ranges == ValuesRanges(d, deps, r, values[..i], d(f.name))
    {
      assert values[..i + 1][..i] == values[..i];
      if values[i].IntValue? {
        var more := GetIntNumValueRanges(d, r, values[i].num, deps, d(f.name));
        ranges := InsertRanges(ranges, more);
      }
    }
    assert values[..|values|] == values;
  }

  method GetSizeRangeSet(ghost d: Depth, r: Record, size: Option<SizeDescriptor>, deps: map<string, int>) returns (ranges: seq<Interval>)
    requires Layered(d, r)
    ensures ranges == SizeRanges(d, deps, r, size)
  {
    ranges := [];
    if size.None? {
      return;
    }
    var sizes := GetIntNumValueRanges(d, r, ClampedSize(size.value), deps, TopOf(d, size.value));
    sizes := WithoutNegatives(sizes);
    ranges := Reinserted(sizes);
  }

  /** Adding the ranges of a set one by one gives the set again. */
  method Reinserted(sizes: seq<Interval>) returns (ranges: seq<Interval>)
    requires Canonical(sizes)
    ensures ranges == sizes
  {
    ranges := [];
    for i := 0 to |sizes|
      invariant ranges == sizes[..i]
    {
      assert sizes[..i] + [sizes[i]] == sizes[..i + 1];
      InsertLast(sizes[..i], sizes[i]);
      ranges := Insert(ranges, sizes[i]);
    }
  }

  /* What the ranges promise */

  /** The integer that a field has in an instance, if it has one: an integer, or a text that the
      field's format reads as one. */
  type Valuation = string -> Option<int>

  /** The value a constant or reference has when fields have the values `v`. */
  function Value(v: Valuation, x: ValOrRef<int>): Option<int> {
    if x.Val? then Some(x.value) else v(x.ref.name)
  }

  predicate Allows(v: Valuation, num: NumValue<int>, x: int) {
    match num
    case Single(y) => Value(v, y) == Some(x)
    case Range(start, end) =>
      Value(v, start).Some? && Value(v, end).Some? && Value(v, start).value <= x <= Value(v, end).value
  }

  /** An entry that says nothing about the field's integer: bytes, a float, the text of another
      field, or a text that nothing reads as an integer. */
  predicate Free(f: Field, entry: FieldValue) {
    match entry
    case IntValue(_) => false
    case StringValue(text) => text.Reference? || f.stringFormat.None?
    case _ => true
  }

  predicate Permits(v: Valuation, f: Field, entry: FieldValue, x: Option<int>) {
    match entry
    case IntValue(num) => x.Some? && Allows(v, num, x.value)
    case StringValue(text) => !Free(f, entry) ==> x == Parsed(f.stringFormat.value, text.value)
    case _ => true
  }

  /** Fields that have a value of their own. */
  predicate IsLeaf(f: Field) {
    !f.kind.Array? && !f.kind.Record?
  }

  predicate ListsValues(f: Field) {
    f.possibleValues.Some? && f.possibleValues.value != []
  }

  /** Every field with possible values has one of them. */
  ghost predicate Consistent(v: Valuation, fields: seq<Field>) {
    forall f | f in fields && IsLeaf(f) && ListsValues(f) ::
      exists i | 0 <= i < |f.possibleValues.value| :: Permits(v, f, f.possibleValues.value[i], v(f.name))
  }

  /** Values fit their type, and are what the caller already knows. */
  ghost predicate Known(v: Valuation, deps: map<string, int>) {
    && (forall n | v(n).Some? :: INT_MIN <= v(n).value <= INT_MAX)
    && forall n | n in deps :: v(n) == Some(deps[n])
  }

  /** A value that is just a reference refers to something with known ranges. */
  ghost predicate Bounded(d: Depth, deps: map<string, int>, r: Record, v: ValOrRef<int>)
    requires Layered(d, r)
  {
    v.Reference? ==>
      v.ref.name in deps || (FindField(r.fields, v.ref.name).Some? &&
                             PossibleRanges(d, deps, r, FindField(r.fields, v.ref.name).value) != [])
  }

  /** Entry `i` of a value list is just a reference, to something without known ranges. */
  ghost predicate Unbounded(d: Depth, deps: map<string, int>, r: Record, vs: seq<FieldValue>, i: int)
    requires Layered(d, r)
  {
    0 <= i < |vs| && vs[i].IntValue? && vs[i].num.Single? && !Bounded(d, deps, r, vs[i].num.value)
  }

  /** A text that is no integer, or one that lies in the ranges anyway. */
  ghost predicate TextCovered(rs: seq<Interval>, f: Field, entry: FieldValue) {
    && entry.StringValue? && !Free(f, entry)
    && (Parsed(f.stringFormat.value, entry.text.value).Some? ==> Covers(rs, Parsed(f.stringFormat.value, entry.text.value).value))
  }

  /** The ranges of a field, if it has any, speak for its whole list: no entry is a reference without
      ranges, and the others that are no integers are texts that change nothing. */
  ghost predicate Closed(d: Depth, deps: map<string, int>, r: Record, f: Field)
    requires Layered(d, r) && f in r.fields
  {
    f.possibleValues.Some? ==>
      var rs, vs := PossibleRanges(d, deps, r, f), f.possibleValues.value;
      rs == [] || (IsLeaf(f) && forall i | 0 <= i < |vs| :: !Unbounded(d, deps, r, vs, i) && (vs[i].IntValue? || TextCovered(rs, f, vs[i])))
  }

  ghost predicate AllClosed(d: Depth, deps: map<string, int>, r: Record)
    requires Layered(d, r)
  {
    forall f | f in r.fields :: Closed(d, deps, r, f)
  }

  /** The same for the fields that lie below `limit`. */
  ghost predicate ClosedBelow(d: Depth, deps: map<string, int>, r: Record, limit: nat)
    requires Layered(d, r)
  {
    forall f | f in r.fields && d(f.name) < limit :: Closed(d, deps, r, f)
  }

  ghost predicate CoversIfAny(rs: seq<Interval>, x: Option<int>) {
    x.Some? ==> rs == [] || Covers(rs, x.value)
  }

  lemma {:induction false} CoversSingleton(x: int)
    ensures Covers([Interval(x, x)], x)
  {
    assert Inside(x, [Interval(x, x)][0]);
  }

  lemma {:induction false} CoversBetween(rs: seq<Interval>, x: int)
    requires Canonical(rs) && Covers(rs, x)
    ensures rs != [] && rs[0].lo <= x <= rs[|rs| - 1].hi
  {
    var i :| 0 <= i < |rs| && Inside(x, rs[i]);
    assert i > 0 ==> rs[0].hi + 1 < rs[i].lo;
    assert i < |rs| - 1 ==> rs[i].hi + 1 < rs[|rs| - 1].lo;
  }

  /** A value lies in its ranges, unless they are empty. */
  lemma {:induction false} ValRangesCover(d: Depth, deps: map<string, int>, r: Record, v: Valuation, x: ValOrRef<int>, limit: nat)
    requires Layered(d, r) && Below(d, r, x, limit) && ClosedBelow(d, deps, r, limit)
    requires Consistent(v, r.fields) && Known(v, deps)
    ensures CoversIfAny(ValRanges(d, deps, r, x, limit), Value(v, x))
    decreases limit, 0
  {
    if Value(v, x).Some? {
      CoversSingleton(Value(v, x).value);
      if x.Reference? && x.ref.name !in deps && FindField(r.fields, x.ref.name).Some? {
        RangesCover(d, deps, r, v, FindField(r.fields, x.ref.name).value);
      }
    }
  }

  lemma {:induction false} NumRangesCover(d: Depth, deps: map<string, int>, r: Record, v: Valuation, num: NumValue<int>, limit: nat, x: int)
    requires Layered(d, r) && NumBelow(d, r, num, limit) && ClosedBelow(d, deps, r, limit)
    requires Consistent(v, r.fields) && Known(v, deps)
    requires Allows(v, num, x) && INT_MIN <= x <= INT_MAX
    requires num.Single? ==> ValRanges(d, deps, r, num.value, limit) != []
    ensures Covers(NumRanges(d, deps, r, num, limit), x)
    decreases limit, 1
  {
    match num
    case Single(y) =>
      ValRangesCover(d, deps, r, v, y, limit);
    case Range(start, end) =>
      ValRangesCover(d, deps, r, v, start, limit);
      ValRangesCover(d, deps, r, v, end, limit);
      BetweenBounds(ValRanges(d, deps, r, start, limit), ValRanges(d, deps, r, end, limit), Value(v, start).value, Value(v, end).value, x);
      assert Inside(x, NumRanges(d, deps, r, num, limit)[0]);
  }

  lemma {:induction false} BetweenBounds(starts: seq<Interval>, ends: seq<Interval>, a: int, b: int, x: int)
    requires Canonical(starts) && Canonical(ends) && CoversIfAny(starts, Some(a)) && CoversIfAny(ends, Some(b))
    requires a <= x <= b && INT_MIN <= x <= INT_MAX
    ensures (if starts == [] then INT_MIN else starts[0].lo) <= x <= (if ends == [] then INT_MAX else ends[|ends| - 1].hi)
  {
    if starts != [] { CoversBetween(starts, a); }
    if ends != [] { CoversBetween(ends, b); }
  }

  /** The ranges of a list are those of its entries put together. */
  lemma {:induction false} ValuesRangesAre(d: Depth, deps: map<string, int>, r: Record, vs: seq<FieldValue>, limit: nat, x: int)
    requires Layered(d, r) && ValuesBelow(d, r, vs, limit)
    ensures Covers(ValuesRanges(d, deps, r, vs, limit), x) <==>
            exists i | 0 <= i < |vs| && vs[i].IntValue? :: Covers(NumRanges(d, deps, r, vs[i].num, limit), x)
    decreases |vs|
  {
    if vs != [] {
      var init, last := vs[..|vs| - 1], vs[|vs| - 1];
      var before := ValuesRanges(d, deps, r, init, limit);
      ValuesRangesAre(d, deps, r, init, limit, x);
      if last.IntValue? {
        InsertAllCovers(before, NumRanges(d, deps, r, last.num, limit), x);
      }
      assert forall i | 0 <= i < |init| :: init[i] == vs[i];
    }
  }

  /** A consistent value of a field lies in the ranges computed for it, or the field takes it from a
      reference that has no ranges or from an entry that is no integer. */
  lemma {:induction false} MissedByEntry(d: Depth, deps: map<string, int>, r: Record, v: Valuation, f: Field)
    requires Layered(d, r) && ClosedBelow(d, deps, r, d(f.name))
    requires Consistent(v, r.fields) && Known(v, deps)
    requires f in r.fields && IsLeaf(f) && ListsValues(f) && v(f.name).Some?
    ensures Covers(PossibleRanges(d, deps, r, f), v(f.name).value) || exists i | 0 <= i < |f.possibleValues.value| ::
              && Permits(v, f, f.possibleValues.value[i], v(f.name))
              && (Unbounded(d, deps, r, f.possibleValues.value, i) || !f.possibleValues.value[i].IntValue?)
    decreases d(f.name), 3
  {
    var vs := f.possibleValues.value;
    var i :| 0 <= i < |vs| && Permits(v, f, vs[i], v(f.name));
    if vs[i].IntValue? && !Unbounded(d, deps, r, vs, i) {
      NumRangesCover(d, deps, r, v, vs[i].num, d(f.name), v(f.name).value);
      ValuesRangesAre(d, deps, r, vs, d(f.name), v(f.name).value);
    }
  }

  /** Every consistent value of a field lies in the ranges computed for it, unless they are empty,
      if the ranges of everything that counts for it speak for the whole lists. */
  lemma {:induction false} RangesCover(d: Depth, deps: map<string, int>, r: Record, v: Valuation, f: Field)
    requires Layered(d, r) && ClosedBelow(d, deps, r, d(f.name) + 1)
    requires Consistent(v, r.fields) && Known(v, deps) && f in r.fields
    ensures CoversIfAny(PossibleRanges(d, deps, r, f), v(f.name))
    decreases d(f.name), 4
  {
    if PossibleRanges(d, deps, r, f) != [] && v(f.name).Some? {
      if !ListsValues(f) { RangesNeedValues(d, deps, r, f); }
      assert Closed(d, deps, r, f);
      MissedByEntry(d, deps, r, v, f);
    }
  }

  lemma {:induction false} RangesNeedValues(d: Depth, deps: map<string, int>, r: Record, f: Field)
    requires Layered(d, r) && f in r.fields && !ListsValues(f)
    ensures PossibleRanges(d, deps, r, f) == []
  {
    if f.possibleValues.Some? {
      assert ValuesRanges(d, deps, r, f.possibleValues.value, d(f.name)) == [];
    }
  }
}
