/** Where the minimum size is no lower bound: lengths that are looked up in the wrong record, and
    lists that mix integers and texts. */
module MinimumLimits {
  import opened Options
  import opened Schema
  import opened Intervals
  import opened IntRanges
  import opened MissedValues
  import opened Layout

  /* A length that the item record has a field for */

  function FieldSize(name: string): Option<SizeDescriptor> {
    Some(Single(Reference(Ref(ToField, name))))
  }

  /** The field lists constants only. */
  predicate ListsConstants(g: Field) {
    IsLeaf(g) && ListsValues(g) && forall i | 0 <= i < |g.possibleValues.value| :: IsConstant(g.possibleValues.value[i])
  }

  predicate IsConstant(entry: FieldValue) {
    entry.IntValue? &&
    match entry.num
    case Single(x) => x.Val? && INT_MIN <= x.value <= INT_MAX
    case Range(start, end) => start.Val? && end.Val? && INT_MIN <= start.value && end.value <= INT_MAX
  }

  lemma {:induction false} ConstantPermits(d: Depth, deps: map<string, int>, r: Record, v: Valuation, g: Field, entry: FieldValue, limit: nat, x: int)
    requires Layered(d, r) && IsConstant(entry) && NumBelow(d, r, entry.num, limit)
    requires Covers(NumRanges(d, deps, r, entry.num, limit), x)
    ensures Permits(v, g, entry, Some(x)) && INT_MIN <= x <= INT_MAX
  {
    var rs := NumRanges(d, deps, r, entry.num, limit);
    var k :| 0 <= k < |rs| && Inside(x, rs[k]);
    match entry.num
    case Single(y) =>
      assert ValRanges(d, deps, r, y, limit) == [Interval(y.value, y.value)];
    case Range(start, end) =>
      assert ValRanges(d, deps, r, start, limit) == [Interval(start.value, start.value)];
      assert ValRanges(d, deps, r, end, limit) == [Interval(end.value, end.value)];
      assert rs == [Interval(start.value, end.value)];
  }

  lemma {:induction false} FieldSizeRanges(d: Depth, deps: map<string, int>, r: Record, g: Field)
    requires Layered(d, r) && DistinctFields(r.fields) && g in r.fields && g.name !in deps
    ensures SizeRanges(d, deps, r, FieldSize(g.name)) == WithoutNegatives(PossibleRanges(d, deps, r, g))
  {
    var num := FieldSize(g.name).value;
    OnlyOneOfAName(r.fields, FindField(r.fields, g.name).value, g);
    assert ClampedSize(num) == num;
    assert ValRanges(d, deps, r, num.value, TopOf(d, num)) == PossibleRanges(d, deps, r, g);
  }

  /** What a reference can be, if it is to a field that lists constants and restricts no other one. */
  lemma {:induction false} LeastIsPossible(d: Depth, deps: map<string, int>, r: Record, g: Field, u: Valuation) returns (v: Valuation)
    requires Layered(d, r) && DistinctFields(r.fields) && Consistent(u, r.fields) && Known(u, deps)
    requires g in r.fields && ListsConstants(g) && g.name !in deps && FreeFor(r, g, g.name)
    requires SizeRanges(d, deps, r, FieldSize(g.name)) != []
    ensures Consistent(v, r.fields) && Known(v, deps)
    ensures v(g.name) == Some(First(SizeRanges(d, deps, r, FieldSize(g.name)))) && v(g.name).value >= 0
  {
    var sizes, vs := SizeRanges(d, deps, r, FieldSize(g.name)), g.possibleValues.value;
    var x := First(sizes);
    FieldSizeRanges(d, deps, r, g);
    FirstIsLeast(sizes, x);
    NonNegativesStay(PossibleRanges(d, deps, r, g), x);
    ValuesRangesAre(d, deps, r, vs, d(g.name), x);
    var i :| 0 <= i < |vs| && vs[i].IntValue? && Covers(NumRanges(d, deps, r, vs[i].num, d(g.name)), x);
    v := Moved(u, {g.name}, x);
    ConstantPermits(d, deps, r, v, g, vs[i], d(g.name), x);
    forall h | h in r.fields
      ensures h.name == g.name ==> h == g
    {
      OnlyOneOfAName(r.fields, h, g);
    }
    MovedIsConsistent(deps, r, u, g, {g.name}, i, x);
  }

  /** The least length found in the item record `q` is right for an array of `r` exactly if it is
      no larger than the least one of the field that is meant. */
  lemma {:induction false} BorrowedLengthIsExact(dr: Depth, dq: Depth, deps: map<string, int>, r: Record, q: Record, g: Field, u: Valuation)
    requires Layered(dr, r) && Layered(dq, q) && DistinctFields(r.fields) && AllClosed(dr, deps, r)
    requires Consistent(u, r.fields) && Known(u, deps)
    requires g in r.fields && ListsConstants(g) && g.name !in deps && FreeFor(r, g, g.name)
    requires SizeRanges(dr, deps, r, FieldSize(g.name)) != []
    ensures var least := First(SizeRanges(dq, deps, q, FieldSize(g.name)));
            (forall v, n: nat | Consistent(v, r.fields) && Known(v, deps) && SizeAdmits(v, FieldSize(g.name), n) :: least <= n)
            <==> least <= First(SizeRanges(dr, deps, r, FieldSize(g.name)))
  {
    var size := FieldSize(g.name);
    var least, own := First(SizeRanges(dq, deps, q, size)), First(SizeRanges(dr, deps, r, size));
    if least <= own {
      forall v, n: nat | Consistent(v, r.fields) && Known(v, deps) && SizeAdmits(v, size, n)
        ensures least <= n
      {
        SizeBound(dr, deps, r, v, size, n);
      }
    } else {
      var v := LeastIsPossible(dr, deps, r, g, u);
      assert SizeAdmits(v, size, own);
    }
  }

  /* Why lengths must not be mistaken: an array of `n` items, where the items have an `n` of their own */

  function OneByteInt(name: string, value: int): Field {
    IntField(name, Some([IntValue(Single(Val(value)))])).(byteSize := Some(Single(Val(1))))
  }

  const ITEM: Record := Record.Record("item", Struct, None, [OneByteInt("n", 5)])
  const ITEMS: Field :=
    Field("items", Array, Some(Single(Reference(Ref(ToField, "n")))), None, None, Some(Ref(ToRecord, "item")), None, None, None, None)
  const OUTER: Record := Record.Record("outer", Struct, None, [OneByteInt("n", 0), ITEMS])
  const BORROWING: Named := map["item" := ITEM, "outer" := OUTER]

  ghost function Flat(n: string): Depth {
    m => 0
  }

  ghost function OuterAbove(n: string): nat {
    if n == "outer" then 1 else 0
  }

  lemma {:induction false} LiteralRange(d: Depth, r: Record, x: nat)
    requires Layered(d, r) && x <= INT_MAX
    ensures SizeRanges(d, map[], r, Some(Single(Val(x)))) == [Interval(x, x)]
  {
  }

  lemma {:induction false} OneValue(d: Depth, r: Record, f: Field, x: int)
    requires Layered(d, r) && f in r.fields && f.possibleValues == Some([IntValue(Single(Val(x)))])
    ensures PossibleRanges(d, map[], r, f) == [Interval(x, x)]
  {
    var vs, xs := f.possibleValues.value, [Interval(x, x)];
    assert vs[..0] == [] && xs[..0] == [] && InsertAll([], xs[..0]) == [];
    assert InsertAll([], xs) == xs;
    assert NumRanges(d, map[], r, vs[0].num, d(f.name)) == xs;
    assert ValuesRanges(d, map[], r, vs, d(f.name)) == xs;
  }

  lemma {:induction false} BorrowingGrounded()
    ensures Grounded(BORROWING, Flat, OuterAbove) && Clear(BORROWING, Flat, map[])
  {
    ConstantsOnly(Flat("item"), ITEM);
    ConstantsOnly(Flat("outer"), OUTER);
  }

  lemma {:induction false} ConstantsOnly(d: Depth, r: Record)
    requires forall f | f in r.fields && f.possibleValues.Some? :: ListsConstants(f)
    ensures Layered(d, r) && AllClosed(d, map[], r)
  {
  }

  /** Five items are counted, the length of an inner `n`; the outer `n` says there are none. */
  lemma {:induction false} BorrowedLengthFails(c: Codec)
    requires forall f, x, bytes :: c(f, x, bytes)
    ensures Grounded(BORROWING, Flat, OuterAbove) && Clear(BORROWING, Flat, map[])
    ensures !LengthsFit(BORROWING, Flat, OuterAbove, map[]) && !MinimumHolds(c, BORROWING, Flat, OuterAbove, map[])
  {
    BorrowingGrounded();
    BorrowedMinimum();
    var v: Valuation := n => Some(0);
    var i := Fields(v, [Leaf([0]), Items([])]);
    BorrowedInstance(c, v, i);
    BorrowedMisfits();
    TooLarge(c, BORROWING, Flat, OuterAbove, map[], "outer", i);
  }

  lemma {:induction false} TooLarge(c: Codec, t: Named, d: string -> Depth, rank: string -> nat, deps: map<string, int>, n: string, i: Instance)
    requires Grounded(t, d, rank) && n in t && RecordOk(c, t, t[n], i) && Agrees(deps, i)
    requires |Written(i)| < RecordMin(t, d, rank, deps, t[n])
    ensures !MinimumHolds(c, t, d, rank, deps)
  {
  }

  lemma {:induction false} BorrowedMisfits()
    requires Grounded(BORROWING, Flat, OuterAbove)
    ensures !LengthsFit(BORROWING, Flat, OuterAbove, map[])
  {
    OuterLengths();
    ItemLengths();
    assert FindField(ITEM.fields, "n").Some?;
    assert !LengthFits(Flat("outer"), Flat("item"), map[], BORROWING["outer"], BORROWING["item"], ITEMS.len);
    assert ITEMS in BORROWING["outer"].fields && RecordRef(ITEMS) == Some("item");
  }

  lemma {:induction false} BorrowedInstance(c: Codec, v: Valuation, i: Instance)
    requires (forall f, x, bytes :: c(f, x, bytes)) && (forall n :: v(n) == Some(0)) && i == Fields(v, [Leaf([0]), Items([])])
    ensures RecordOk(c, BORROWING, OUTER, i) && Agrees(map[], i) && |Written(i)| == 1
  {
    var xs := i.parts;
    assert AllWritten(xs[1..]) == Written(xs[1]) + AllWritten(xs[1..][1..]);
    assert Written(i) == [0];
    assert OUTER.fields[1..] == [ITEMS];
    assert FieldOk(c, BORROWING, v, ITEMS, xs[1]);
    assert Permits(v, OUTER.fields[0], OUTER.fields[0].possibleValues.value[0], v("n"));
    assert FieldOk(c, BORROWING, v, OUTER.fields[0], xs[0]);
    assert FieldsOk(c, BORROWING, v, OUTER.fields[1..], xs[1..]);
  }

  lemma {:induction false} ByteMinimum(n: string, r: Record)
    requires Grounded(BORROWING, Flat, OuterAbove) && n in BORROWING && BORROWING[n] == r && r.name == n
    ensures FieldsMin(BORROWING, Flat, OuterAbove, map[], r, 1) == 1
  {
    var f := r.fields[0];
    LiteralRange(Flat(n), r, 1);
    assert FieldMin(BORROWING, Flat, OuterAbove, map[], r, f) == 1;
    assert FieldsMin(BORROWING, Flat, OuterAbove, map[], r, 0) == 0;
  }

  lemma {:induction false} ItemLengths()
    requires Grounded(BORROWING, Flat, OuterAbove)
    ensures SizeRanges(Flat("item"), map[], ITEM, ITEMS.len) == [Interval(5, 5)]
  {
    OneValue(Flat("item"), ITEM, ITEM.fields[0], 5);
    assert FindField(ITEM.fields, "n") == Some(ITEM.fields[0]);
  }

  lemma {:induction false} OuterLengths()
    requires Grounded(BORROWING, Flat, OuterAbove)
    ensures SizeRanges(Flat("outer"), map[], OUTER, ITEMS.len) == [Interval(0, 0)]
  {
    OneValue(Flat("outer"), OUTER, OUTER.fields[0], 0);
    assert FindField(OUTER.fields, "n") == Some(OUTER.fields[0]);
  }

  lemma {:induction false} ItemMinimum()
    requires Grounded(BORROWING, Flat, OuterAbove)
    ensures RecordMin(BORROWING, Flat, OuterAbove, map[], ITEM) == 1
  {
    ByteMinimum("item", ITEM);
  }

  lemma {:induction false} ArrayMinimum(t: Named, d: string -> Depth, rank: string -> nat, r: Record, f: Field, q: Record, n: nat, each: nat)
    requires Grounded(t, d, rank) && r.name in t && t[r.name] == r && f in r.fields && f.kind.Array?
    requires RecordRef(f) == Some(q.name) && q.name in t && t[q.name] == q
    requires SizeRanges(d(q.name), map[], q, f.len) == [Interval(n, n)] && RecordMin(t, d, rank, map[], q) == each
    ensures FieldMin(t, d, rank, map[], r, f) == Wrapped(n * each)
  {
  }

  lemma {:induction false} ItemsMinimum()
    requires Grounded(BORROWING, Flat, OuterAbove)
    ensures FieldMin(BORROWING, Flat, OuterAbove, map[], OUTER, ITEMS) == 5
  {
    ItemMinimum();
    ItemLengths();
    ArrayMinimum(BORROWING, Flat, OuterAbove, OUTER, ITEMS, ITEM, 5, 1);
  }

  lemma {:induction false} BorrowedMinimum()
    requires Grounded(BORROWING, Flat, OuterAbove)
    ensures RecordMin(BORROWING, Flat, OuterAbove, map[], OUTER) == 6
  {
    ByteMinimum("outer", OUTER);
    ItemsMinimum();
    var k := |OUTER.fields|;
    assert k == 2 && OUTER.fields[k - 1] == ITEMS;
    assert FieldsMin(BORROWING, Flat, OuterAbove, map[], OUTER, k) == 6;
  }

  /* A list that mixes a text and an integer: `n` is "1" or 5, and `b` has `n` bytes */

  const SIZED: Field := Field("b", FieldKind.Bytes, None, FieldSize("n"), None, None, None, None, None, None)
  const MIXED: Record := Record.Record("mixed", Struct, None, [ONE_OR_FIVE, SIZED])
  const MIXING: Named := map["mixed" := MIXED]

  ghost function NoRank(n: string): nat { 0 }

  lemma {:induction false} MixingGrounded()
    ensures Grounded(MIXING, Flat, NoRank) && LengthsFit(MIXING, Flat, NoRank, map[]) && UnionsOfRecords(MIXING)
  {
  }

  lemma {:induction false} MixedSizes()
    requires Grounded(MIXING, Flat, NoRank)
    ensures SizeRanges(Flat("mixed"), map[], MIXED, SIZED.byteSize) == [Interval(5, 5)]
    ensures !Closed(Flat("mixed"), map[], MIXED, ONE_OR_FIVE)
  {
    TextIsMissed(Flat("mixed"), MIXED);
    assert FindField(MIXED.fields, "n") == Some(ONE_OR_FIVE);
  }

  lemma {:induction false} FieldMinIs(t: Named, d: string -> Depth, rank: string -> nat, r: Record, f: Field, n: nat)
    requires Grounded(t, d, rank) && r.name in t && t[r.name] == r && f in r.fields && !f.kind.Array? && !f.kind.Record?
    requires SizeRanges(d(r.name), map[], r, ByteSize(f)) == [Interval(n, n)]
    ensures FieldMin(t, d, rank, map[], r, f) == n
  {
  }

  lemma {:induction false} MixedMinimum()
    requires Grounded(MIXING, Flat, NoRank)
    ensures RecordMin(MIXING, Flat, NoRank, map[], MIXED) == 6
  {
    MixedSizes();
    LiteralRange(Flat("mixed"), MIXED, 1);
    FieldMinIs(MIXING, Flat, NoRank, MIXED, ONE_OR_FIVE, 1);
    FieldMinIs(MIXING, Flat, NoRank, MIXED, SIZED, 5);
    TwoFieldsMin(MIXING, Flat, NoRank, MIXED);
  }

  lemma {:induction false} TwoFieldsMin(t: Named, d: string -> Depth, rank: string -> nat, r: Record)
    requires Grounded(t, d, rank) && r.name in t && t[r.name] == r && |r.fields| == 2
    ensures FieldsMin(t, d, rank, map[], r, 2) == FieldMin(t, d, rank, map[], r, r.fields[0]) + FieldMin(t, d, rank, map[], r, r.fields[1])
  {
    assert FieldsMin(t, d, rank, map[], r, 0) == 0;
    assert FieldsMin(t, d, rank, map[], r, 1) == FieldMin(t, d, rank, map[], r, r.fields[0]);
  }

  lemma {:induction false} MixedInstance(c: Codec, v: Valuation, i: Instance)
    requires (forall f, x, bytes :: c(f, x, bytes)) && (forall n :: v(n) == Some(1)) && i == Fields(v, [Leaf(['1' as int]), Leaf([0])])
    ensures RecordOk(c, MIXING, MIXED, i) && Agrees(map[], i) && |Written(i)| == 2
  {
    var xs := i.parts;
    assert AllWritten(xs[1..]) == Written(xs[1]) + AllWritten(xs[1..][1..]);
    assert AllWritten(xs) == Written(xs[0]) + AllWritten(xs[1..]);
    assert AllWritten(xs[1..][1..]) == [];
    assert Written(i) == AllWritten(xs) == ['1' as int, 0];
    assert MIXED.fields[1..] == [SIZED];
    OneIsParsed();
    assert Permits(v, ONE_OR_FIVE, ONE_OR_FIVE.possibleValues.value[0], v("n"));
    assert FieldOk(c, MIXING, v, ONE_OR_FIVE, xs[0]);
    assert FieldOk(c, MIXING, v, SIZED, xs[1]);
    assert FieldsOk(c, MIXING, v, MIXED.fields[1..], xs[1..]);
  }

  /** The text is not counted among the sizes of `b`, so the minimum is 6 and an instance has 2 bytes. */
  lemma {:induction false} MixedListFails(c: Codec)
    requires forall f, x, bytes :: c(f, x, bytes)
    ensures Grounded(MIXING, Flat, NoRank) && LengthsFit(MIXING, Flat, NoRank, map[]) && UnionsOfRecords(MIXING)
    ensures !Clear(MIXING, Flat, map[]) && !MinimumHolds(c, MIXING, Flat, NoRank, map[])
  {
    MixingGrounded();
    MixedSizes();
    MixedMinimum();
    var v: Valuation := n => Some(1);
    var i := Fields(v, [Leaf(['1' as int]), Leaf([0])]);
    MixedInstance(c, v, i);
    TooLarge(c, MIXING, Flat, NoRank, map[], "mixed", i);
    assert ONE_OR_FIVE in MIXING["mixed"].fields;
  }

  /* A union that offers an array, which its minimum counts as one item */

  const SOME_ITEMS: Field := Field("some", Array, None, None, None, Some(Ref(ToRecord, "item")), None, None, None, None)
  const OFFER: Record := Record.Record("offer", Union, None, [SOME_ITEMS])
  const OFFERING: Named := map["item" := ITEM, "offer" := OFFER]

  ghost function OfferAbove(n: string): nat {
    if n == "offer" then 1 else 0
  }

  lemma {:induction false} OfferingGrounded()
    ensures Grounded(OFFERING, Flat, OfferAbove) && LengthsFit(OFFERING, Flat, OfferAbove, map[])
  {
  }

  lemma {:induction false} OfferingClear()
    ensures Clear(OFFERING, Flat, map[])
  {
    ConstantsOnly(Flat("item"), ITEM);
    ConstantsOnly(Flat("offer"), OFFER);
  }

  lemma {:induction false} OneByteMin(t: Named, d: string -> Depth, rank: string -> nat, r: Record, f: Field)
    requires Grounded(t, d, rank) && r.name in t && t[r.name] == r && r.kind.Struct? && r.fields == [f]
    requires f.kind.Int? && f.byteSize == Some(Single(Val(1)))
    ensures RecordMin(t, d, rank, map[], r) == 1
  {
    LiteralRange(d(r.name), r, 1);
    FieldMinIs(t, d, rank, r, f, 1);
    assert FieldsMin(t, d, rank, map[], r, 0) == 0;
    assert FieldsMin(t, d, rank, map[], r, 1) == 1;
  }

  /** The items have one byte each, so the minimum is 1, and an instance without items has none. */
  lemma {:induction false} EmptyAlternativeFails(c: Codec)
    ensures Grounded(OFFERING, Flat, OfferAbove) && LengthsFit(OFFERING, Flat, OfferAbove, map[]) && Clear(OFFERING, Flat, map[])
    ensures RecordMin(OFFERING, Flat, OfferAbove, map[], OFFER) == 1
    ensures !NoEmptyAlternative(OFFERING, Flat, OfferAbove, map[]) && !MinimumHolds(c, OFFERING, Flat, OfferAbove, map[])
  {
    OfferingGrounded();
    OfferingClear();
    OneByteMin(OFFERING, Flat, OfferAbove, ITEM, ITEM.fields[0]);
    assert RecordRef(SOME_ITEMS) == Some("item");
    assert AlternativesMin(OFFERING, Flat, OfferAbove, map[], OFFER, 1) == 1;
    assert MayBeEmpty(map[], OFFER, SOME_ITEMS) && SOME_ITEMS in OFFERING["offer"].fields;
    MinimumIsLowerBound(c, OFFERING, Flat, OfferAbove, map[]);
  }
}
