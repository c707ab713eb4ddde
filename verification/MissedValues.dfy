/** Exactly when the ranges of a field miss a value it can have. */
module MissedValues {
  import opened Options
  import opened Schema
  import opened Intervals
  import opened TextNumbers
  import opened IntRanges

  predicate Mentions(num: NumValue<int>, n: string) {
    match num
    case Single(v) => v.Reference? && v.ref.name == n
    case Range(start, end) => (start.Reference? && start.ref.name == n) || (end.Reference? && end.ref.name == n)
  }

  /** No other field takes its values from `n`. */
  predicate FreeFor(r: Record, f: Field, n: string) {
    forall g, i | g in r.fields && g != f && g.possibleValues.Some? && 0 <= i < |g.possibleValues.value| && g.possibleValues.value[i].IntValue? ::
      !Mentions(g.possibleValues.value[i].num, n)
  }

  /** Some consistent value of the field is not in its ranges. */
  ghost predicate Misses(d: Depth, deps: map<string, int>, r: Record, f: Field)
    requires Layered(d, r) && f in r.fields
  {
    exists v, x :: Consistent(v, r.fields) && Known(v, deps) && v(f.name) == Some(x) && !Covers(PossibleRanges(d, deps, r, f), x)
  }

  function RefTo(vs: seq<FieldValue>, i: int): Option<string> {
    if 0 <= i < |vs| && vs[i].IntValue? && vs[i].num.Single? && vs[i].num.value.Reference?
    then Some(vs[i].num.value.ref.name) else None
  }

  /** Entry `i` of a value list is just a reference, to no known dependency and to no field that
      lists values. */
  predicate Unvalued(deps: map<string, int>, r: Record, vs: seq<FieldValue>, i: int) {
    && RefTo(vs, i).Some? && RefTo(vs, i).value !in deps
    && match FindField(r.fields, RefTo(vs, i).value)
       case None => true
       case Some(g) => !ListsValues(g)
  }

  predicate ListsIntegers(g: Field) {
    g.possibleValues.Some? ==> forall i | 0 <= i < |g.possibleValues.value| :: g.possibleValues.value[i].IntValue?
  }

  /** What the validator demands of a list with integers: entries are integers, or texts that the
      field's format reads, and references among the integers are to `int` fields. */
  predicate WellListed(r: Record, f: Field) {
    f.possibleValues.Some? ==>
      && (forall i | 0 <= i < |f.possibleValues.value| :: !Free(f, f.possibleValues.value[i]))
      && forall i | 0 <= i < |f.possibleValues.value| && RefTo(f.possibleValues.value, i).Some? ::
           match FindField(r.fields, RefTo(f.possibleValues.value, i).value)
           case None => true
           case Some(g) => g.kind.Int? && ListsIntegers(g)
  }

  /** No integer entry of the list accounts for `x`. */
  ghost predicate LeftOut(d: Depth, deps: map<string, int>, r: Record, f: Field, x: int)
    requires Layered(d, r) && f in r.fields && f.possibleValues.Some?
  {
    forall i | 0 <= i < |f.possibleValues.value| && f.possibleValues.value[i].IntValue? ::
      !Covers(NumRanges(d, deps, r, f.possibleValues.value[i].num, d(f.name)), x)
  }

  lemma {:induction false} LeftOutIsUncovered(d: Depth, deps: map<string, int>, r: Record, f: Field, x: int)
    requires Layered(d, r) && f in r.fields && f.possibleValues.Some?
    ensures LeftOut(d, deps, r, f, x) <==> !Covers(PossibleRanges(d, deps, r, f), x)
  {
    ValuesRangesAre(d, deps, r, f.possibleValues.value, d(f.name), x);
  }

  /** Entry `i` can give the field the value `x` without having ranges. */
  predicate Brings(deps: map<string, int>, r: Record, f: Field, i: int, x: int)
    requires f.possibleValues.Some?
  {
    var vs := f.possibleValues.value;
    || Unvalued(deps, r, vs, i)
    || (0 <= i < |vs| && vs[i].StringValue? && !Free(f, vs[i]) && Parsed(f.stringFormat.value, vs[i].text.value) == Some(x))
  }

  /** What a field refers to can be given any value, and the field the same one. */
  function Moved(u: Valuation, names: set<string>, x: int): Valuation {
    n => if n in names then Some(x) else u(n)
  }

  lemma {:induction false} OnlyOneOfAName(fields: seq<Field>, f: Field, g: Field)
    requires DistinctFields(fields) && f in fields && g in fields
    ensures f.name == g.name ==> f == g
  {
    var i :| 0 <= i < |fields| && fields[i] == f;
    var j :| 0 <= j < |fields| && fields[j] == g;
    assert i < j ==> fields[i].name != fields[j].name;
    assert j < i ==> fields[j].name != fields[i].name;
  }

  /** Entries that mention none of the moved names permit what they did. */
  lemma {:induction false} StillPermitted(u: Valuation, names: set<string>, x: int, h: Field, entry: FieldValue)
    requires h.name !in names && (entry.IntValue? ==> forall n | n in names :: !Mentions(entry.num, n))
    requires Permits(u, h, entry, u(h.name))
    ensures Permits(Moved(u, names, x), h, entry, u(h.name))
  {
  }

  /** Moving names that no field but `f` mentions and no list restricts, and with them `f`, is
      consistent if an entry of `f` permits it. */
  lemma {:induction false} MovedIsConsistent(deps: map<string, int>, r: Record, u: Valuation, f: Field, names: set<string>, i: nat, x: int)
    requires DistinctFields(r.fields) && Consistent(u, r.fields) && Known(u, deps) && INT_MIN <= x <= INT_MAX
    requires f in r.fields && f.possibleValues.Some? && i < |f.possibleValues.value| && f.name in names
    requires forall n | n in names :: n !in deps && FreeFor(r, f, n)
    requires forall h | h in r.fields && h.name in names && h != f :: !ListsValues(h)
    requires Permits(Moved(u, names, x), f, f.possibleValues.value[i], Some(x))
    ensures Consistent(Moved(u, names, x), r.fields) && Known(Moved(u, names, x), deps)
  {
    var v := Moved(u, names, x);
    forall h | h in r.fields && IsLeaf(h) && ListsValues(h)
      ensures exists j | 0 <= j < |h.possibleValues.value| :: Permits(v, h, h.possibleValues.value[j], v(h.name))
    {
      var vs := h.possibleValues.value;
      if h == f {
        assert Permits(v, h, vs[i], v(h.name));
      } else {
        var j :| 0 <= j < |vs| && Permits(u, h, vs[j], u(h.name));
        StillPermitted(u, names, x, h, vs[j]);
      }
    }
  }

  /** No entry of a field below `limit` is a reference without ranges. */
  ghost predicate BoundedBelow(d: Depth, deps: map<string, int>, r: Record, limit: nat)
    requires Layered(d, r)
  {
    forall g, i | g in r.fields && d(g.name) < limit && g.possibleValues.Some? :: !Unbounded(d, deps, r, g.possibleValues.value, i)
  }

  /** References without listed values, and no others, have no ranges. */
  lemma {:induction false} UnvaluedIsUnbounded(d: Depth, deps: map<string, int>, r: Record, u: Valuation, f: Field, i: int)
    requires Layered(d, r) && ClosedBelow(d, deps, r, d(f.name)) && BoundedBelow(d, deps, r, d(f.name)) && WellListed(r, f)
    requires Consistent(u, r.fields) && Known(u, deps) && f in r.fields && f.possibleValues.Some?
    ensures Unvalued(deps, r, f.possibleValues.value, i) <==> Unbounded(d, deps, r, f.possibleValues.value, i)
  {
    var vs := f.possibleValues.value;
    if RefTo(vs, i).Some? {
      var found := FindField(r.fields, RefTo(vs, i).value);
      assert NumBelow(d, r, vs[i].num, d(f.name));
      if found.Some? {
        if ListsValues(found.value) {
          ListedHasRanges(d, deps, r, u, found.value);
        } else {
          assert PossibleRanges(d, deps, r, found.value) == [];
        }
      }
    }
  }

  lemma {:induction false} ListedHasRanges(d: Depth, deps: map<string, int>, r: Record, u: Valuation, g: Field)
    requires Layered(d, r) && ClosedBelow(d, deps, r, d(g.name) + 1) && BoundedBelow(d, deps, r, d(g.name) + 1)
    requires Consistent(u, r.fields) && Known(u, deps)
    requires g in r.fields && g.kind.Int? && ListsValues(g) && ListsIntegers(g)
    ensures PossibleRanges(d, deps, r, g) != []
  {
    var vs := g.possibleValues.value;
    var j :| 0 <= j < |vs| && Permits(u, g, vs[j], u(g.name));
    MissedByEntry(d, deps, r, u, g);
  }

  /** The ranges of a field miss a consistent value exactly if an entry of its list brings a value
      that the integer entries leave out: a reference without values any, a text the one it says. */
  lemma {:induction false} MissesIffLeftOut(d: Depth, deps: map<string, int>, r: Record, u: Valuation, f: Field)
    requires Layered(d, r) && DistinctFields(r.fields) && WellListed(r, f)
    requires ClosedBelow(d, deps, r, d(f.name)) && BoundedBelow(d, deps, r, d(f.name))
    requires f in r.fields && IsLeaf(f) && ListsValues(f)
    requires Consistent(u, r.fields) && Known(u, deps)
    requires f.name !in deps && FreeFor(r, f, f.name)
    requires forall i | Unvalued(deps, r, f.possibleValues.value, i) :: FreeFor(r, f, RefTo(f.possibleValues.value, i).value)
    ensures Misses(d, deps, r, f) <==>
            exists i, x | INT_MIN <= x <= INT_MAX :: Brings(deps, r, f, i, x) && LeftOut(d, deps, r, f, x)
  {
    var vs := f.possibleValues.value;
    if Misses(d, deps, r, f) {
      var v, x :| Consistent(v, r.fields) && Known(v, deps) && v(f.name) == Some(x) && !Covers(PossibleRanges(d, deps, r, f), x);
      MissedByEntry(d, deps, r, v, f);
      var i :| 0 <= i < |vs| && Permits(v, f, vs[i], v(f.name)) && (Unbounded(d, deps, r, vs, i) || !vs[i].IntValue?);
      UnvaluedIsUnbounded(d, deps, r, u, f, i);
      LeftOutIsUncovered(d, deps, r, f, x);
      assert !Free(f, vs[i]);
      assert Brings(deps, r, f, i, x);
    }
    if i, x :| INT_MIN <= x <= INT_MAX && Brings(deps, r, f, i, x) && LeftOut(d, deps, r, f, x) {
      MissedWhenBrought(d, deps, r, u, f, i, x);
    }
  }

  lemma {:induction false} MissedWhenBrought(d: Depth, deps: map<string, int>, r: Record, u: Valuation, f: Field, i: nat, x: int)
    requires Layered(d, r) && DistinctFields(r.fields)
    requires f in r.fields && IsLeaf(f) && ListsValues(f)
    requires Consistent(u, r.fields) && Known(u, deps) && INT_MIN <= x <= INT_MAX
    requires f.name !in deps && FreeFor(r, f, f.name)
    requires Unvalued(deps, r, f.possibleValues.value, i) ==> FreeFor(r, f, RefTo(f.possibleValues.value, i).value)
    requires Brings(deps, r, f, i, x) && LeftOut(d, deps, r, f, x)
    ensures Misses(d, deps, r, f)
  {
    var vs := f.possibleValues.value;
    var names := {f.name} + if Unvalued(deps, r, vs, i) then {RefTo(vs, i).value} else {};
    forall h | h in r.fields && h.name in names && h != f
      ensures !ListsValues(h)
    {
      OnlyOneOfAName(r.fields, h, f);
      OnlyOneOfAName(r.fields, h, FindField(r.fields, h.name).value);
    }
    MovedIsConsistent(deps, r, u, f, names, i, x);
    LeftOutIsUncovered(d, deps, r, f, x);
    assert Moved(u, names, x)(f.name) == Some(x);
  }

  /** A field whose one value is a reference has its value covered exactly if the reference has
      ranges: no consistent value of one without them is. */
  lemma {:induction false} LoneReferenceNeedsBound(d: Depth, deps: map<string, int>, r: Record, v: Valuation, f: Field, ref: Ref)
    requires Layered(d, r) && f in r.fields && IsLeaf(f)
    requires f.possibleValues == Some([IntValue(Single(Reference(ref)))])
    requires Consistent(v, r.fields) && Known(v, deps) && ClosedBelow(d, deps, r, d(f.name))
    ensures v(f.name).Some?
    ensures Covers(PossibleRanges(d, deps, r, f), v(f.name).value) <==> Bounded(d, deps, r, Reference(ref))
  {
    var vs := f.possibleValues.value;
    assert Permits(v, f, vs[0], v(f.name));
    if Bounded(d, deps, r, Reference(ref)) {
      MissedByEntry(d, deps, r, v, f);
    } else {
      assert NumRanges(d, deps, r, vs[0].num, d(f.name)) == [];
      ValuesRangesAre(d, deps, r, vs, d(f.name), v(f.name).value);
    }
  }

  /* An instance: `f` has the values `[g, 5]`, and `g` can be anything */

  function IntField(name: string, values: Option<seq<FieldValue>>): Field {
    Field(name, FieldKind.Int, None, None, values, None, None, None, None, None)
  }

  const ANYTHING: Field := IntField("g", None)
  const ANYTHING_OR_FIVE: Field :=
    IntField("f", Some([IntValue(Single(Reference(Ref(ToField, "g")))), IntValue(Single(Val(5)))]))
  const TWO_FIELDS: Record := Record.Record("r", Struct, None, [ANYTHING, ANYTHING_OR_FIVE])

  ghost function FDependsOnG(n: string): nat {
    if n == "f" then 1 else 0
  }

  function AlwaysSeven(n: string): Option<int> { Some(7) }

  lemma {:induction false} InsertFive(five: seq<Interval>)
    requires five == [Interval(5, 5)]
    ensures InsertAll([], five) == five
  {
    assert five[..0] == [] && InsertAll([], five[..0]) == [];
  }

  /** Of two entries, the first without ranges and the second the constant 5. */
  lemma {:induction false} RangesAreFive(d: Depth, deps: map<string, int>, r: Record, f: Field)
    requires Layered(d, r) && f in r.fields && f.possibleValues.Some? && |f.possibleValues.value| == 2
    requires f.possibleValues.value[1] == IntValue(Single(Val(5)))
    requires var entry := f.possibleValues.value[0];
             entry.IntValue? ==> NumBelow(d, r, entry.num, d(f.name)) && NumRanges(d, deps, r, entry.num, d(f.name)) == []
    ensures PossibleRanges(d, deps, r, f) == [Interval(5, 5)]
  {
    var vs, limit, five := f.possibleValues.value, d(f.name), [Interval(5, 5)];
    assert vs[..1][..0] == [] && vs[..|vs| - 1] == vs[..1];
    assert ValuesBelow(d, r, vs, limit) && ValuesBelow(d, r, vs[..1], limit);
    assert ValuesRanges(d, deps, r, vs[..1][..0], limit) == [];
    assert InsertAll([], []) == [];
    assert ValuesRanges(d, deps, r, vs[..1], limit) == [];
    InsertFive(five);
    assert NumRanges(d, deps, r, vs[1].num, limit) == five;
    assert ValuesRanges(d, deps, r, vs, limit) == five;
  }

  lemma {:induction false} AnythingOrFive(d: Depth, r: Record)
    requires Layered(d, r) && ANYTHING_OR_FIVE in r.fields && FindField(r.fields, "g") == Some(ANYTHING)
    ensures PossibleRanges(d, map[], r, ANYTHING_OR_FIVE) == [Interval(5, 5)]
  {
    var vs := ANYTHING_OR_FIVE.possibleValues.value;
    assert PossibleRanges(d, map[], r, ANYTHING) == [];
    assert NumBelow(d, r, vs[0].num, d("f"));
    assert NumRanges(d, map[], r, vs[0].num, d("f")) == [];
    RangesAreFive(d, map[], r, ANYTHING_OR_FIVE);
  }

  /** The value 7 is possible for both fields, and the ranges of `f` are just 5. */
  lemma {:induction false} SevenIsMissed()
    ensures Layered(FDependsOnG, TWO_FIELDS)
    ensures Consistent(AlwaysSeven, TWO_FIELDS.fields) && Known(AlwaysSeven, map[])
    ensures PossibleRanges(FDependsOnG, map[], TWO_FIELDS, ANYTHING_OR_FIVE) == [Interval(5, 5)]
    ensures Misses(FDependsOnG, map[], TWO_FIELDS, ANYTHING_OR_FIVE)
  {
    SevenIsPossible();
    AnythingOrFive(FDependsOnG, TWO_FIELDS);
    assert !Covers([Interval(5, 5)], 7);
  }

  lemma {:induction false} SevenIsPossible()
    ensures Layered(FDependsOnG, TWO_FIELDS) && FindField(TWO_FIELDS.fields, "g") == Some(ANYTHING)
    ensures Consistent(AlwaysSeven, TWO_FIELDS.fields) && Known(AlwaysSeven, map[])
  {
    var vs := ANYTHING_OR_FIVE.possibleValues.value;
    assert Permits(AlwaysSeven, ANYTHING_OR_FIVE, vs[0], AlwaysSeven("f"));
  }

  /* Why no other field may restrict `g`: here `h` lies in g..5 and `k` in 5..g, so `g` is 5 */

  const AT_MOST_FIVE: Field := IntField("h", Some([IntValue(Range(Reference(Ref(ToField, "g")), Val(5)))]))
  const AT_LEAST_FIVE: Field := IntField("k", Some([IntValue(Range(Val(5), Reference(Ref(ToField, "g"))))]))
  const PINNED: Record := Record.Record("r", Struct, None, [ANYTHING, ANYTHING_OR_FIVE, AT_MOST_FIVE, AT_LEAST_FIVE])

  ghost function AllDependOnG(n: string): nat {
    if n == "g" then 0 else 1
  }

  lemma {:induction false} PinnedValue(v: Valuation)
    requires Consistent(v, PINNED.fields)
    ensures v("f") == Some(5)
  {
    assert AT_MOST_FIVE in PINNED.fields && AT_LEAST_FIVE in PINNED.fields && ANYTHING_OR_FIVE in PINNED.fields;
    assert v("g") == Some(5);
  }

  lemma {:induction false} PinnedIsLayered()
    ensures Layered(AllDependOnG, PINNED) && Unvalued(map[], PINNED, ANYTHING_OR_FIVE.possibleValues.value, 0)
    ensures FindField(PINNED.fields, "g") == Some(ANYTHING)
  {
  }

  /** `f` lists a reference without values, which brings 7, and still nothing is missed. */
  lemma {:induction false} PinnedIsNotMissed()
    ensures Layered(AllDependOnG, PINNED)
    ensures Brings(map[], PINNED, ANYTHING_OR_FIVE, 0, 7) && LeftOut(AllDependOnG, map[], PINNED, ANYTHING_OR_FIVE, 7)
    ensures !Misses(AllDependOnG, map[], PINNED, ANYTHING_OR_FIVE)
  {
    var rs := [Interval(5, 5)];
    PinnedIsLayered();
    AnythingOrFive(AllDependOnG, PINNED);
    LeftOutIsUncovered(AllDependOnG, map[], PINNED, ANYTHING_OR_FIVE, 7);
    forall v | Consistent(v, PINNED.fields)
      ensures v("f") == Some(5)
    {
      PinnedValue(v);
    }
    assert Inside(5, rs[0]) && Covers(rs, 5);
  }

  /* Another one: the text `"1"` beside the integer 5 */

  const ONE_OR_FIVE: Field :=
    Field("n", FieldKind.String, None, Some(Single(Val(1))), Some([StringValue(Val(['1' as int])), IntValue(Single(Val(5)))]),
          None, None, Some(DecInt), None, None)

  lemma {:induction false} OneIsParsed()
    ensures Parsed(DecInt, ['1' as int]) == Some(1)
  {
    var text := ['1' as int];
    assert text[..|text| - 1] == [] && Digits(10, []) == Some(0);
    assert Digit(text[|text| - 1]) == Some(1);
    assert Digits(10, text) == Some(1);
  }

  /** A decimal text field with these values can be 1, and its ranges are just 5. */
  lemma {:induction false} TextIsMissed(d: Depth, r: Record)
    requires Layered(d, r) && ONE_OR_FIVE in r.fields
    ensures PossibleRanges(d, map[], r, ONE_OR_FIVE) == [Interval(5, 5)]
    ensures Brings(map[], r, ONE_OR_FIVE, 0, 1) && LeftOut(d, map[], r, ONE_OR_FIVE, 1) && !Closed(d, map[], r, ONE_OR_FIVE)
  {
    OneIsParsed();
    RangesAreFive(d, map[], r, ONE_OR_FIVE);
    LeftOutIsUncovered(d, map[], r, ONE_OR_FIVE, 1);
    assert !Covers([Interval(5, 5)], 1);
  }
}
