/** Unrolling leaves the computed minimum sizes as they were. */
module UnrollMinSize {
  import opened Options
  import opened Schema
  import opened Intervals
  import opened IntRanges
  import opened Layout
  import opened Unroll
  import opened Regrouping

  /** Looking `name` up in the record is not affected by unrolling it. */
  ghost predicate SteadyName(r: Record, name: string) {
    r.kind.Struct? ==>
      forall f {:trigger Unrollable(f)} | f in r.fields && Unrollable(f) :: name != f.name && forall i: nat | i < Count(f) :: name != CopyName(f.name, i)
  }

  ghost predicate SteadyVal(r: Record, v: ValOrRef<int>) {
    v.Reference? ==> SteadyName(r, v.ref.name)
  }

  ghost predicate SteadyNum(r: Record, num: NumValue<int>) {
    match num
    case Single(v) => SteadyVal(r, v)
    case Range(start, end) => SteadyVal(r, start) && SteadyVal(r, end)
  }

  ghost predicate SteadyValues(r: Record, vs: seq<FieldValue>) {
    forall i | 0 <= i < |vs| && vs[i].IntValue? :: SteadyNum(r, vs[i].num)
  }

  ghost predicate SteadySize(r: Record, size: Option<SizeDescriptor>) {
    size.Some? ==> SteadyNum(r, size.value)
  }

  /** No integer or size refers to an unrolled array or to the name of a copy. */
  ghost predicate SteadyRecord(r: Record) {
    forall f | f in r.fields ::
      (f.possibleValues.Some? ==> SteadyValues(r, f.possibleValues.value)) && SteadySize(r, ByteSize(f))
  }

  /** The same for the lengths of arrays, which are looked up in the record of the items. */
  ghost predicate Steady(t: Named) {
    && (forall n {:trigger t[n]} | n in t :: SteadyRecord(t[n]))
    && forall n, f | n in t && f in t[n].fields && f.kind.Array? && RecordRef(f).Some? && RecordRef(f).value in t ::
         SteadySize(t[RecordRef(f).value], f.len)
  }

  /** A length beyond this cannot be allocated. */
  ghost predicate Allocatable(t: Named) {
    forall n, f {:trigger t[n], Unrollable(f)} | n in t && f in t[n].fields && Unrollable(f) :: Count(f) <= INT_MAX
  }

  /* Lookups */

  lemma {:induction false} LookupStays(fs: seq<Field>, name: string)
    requires forall f {:trigger Unrollable(f)} | f in fs && Unrollable(f) :: name != f.name && forall i: nat | i < Count(f) :: name != CopyName(f.name, i)
    ensures FindField(UnrolledFields(fs), name) == FindField(fs, name)
  {
    if fs != [] {
      LookupStays(fs[1..], name);
      assert fs[0] in fs;
      if Unrollable(fs[0]) {
        SkipsCopies(fs[0], 0, UnrolledFields(fs[1..]), name);
        assert Copies(fs[0], Count(fs[0]))[0..] == UnrolledField(fs[0]);
      } else {
        assert (UnrolledField(fs[0]) + UnrolledFields(fs[1..]))[1..] == UnrolledFields(fs[1..]);
      }
    }
  }

  lemma {:induction false} SkipsCopies(f: Field, from: nat, rest: seq<Field>, name: string)
    requires Unrollable(f) && from <= Count(f) && forall i: nat | i < Count(f) :: name != CopyName(f.name, i)
    ensures FindField(Copies(f, Count(f))[from..] + rest, name) == FindField(rest, name)
    decreases Count(f) - from
  {
    var copies := Copies(f, Count(f))[from..];
    if from == Count(f) {
      assert copies + rest == rest;
    } else {
      SkipsCopies(f, from + 1, rest, name);
      assert (copies + rest)[1..] == Copies(f, Count(f))[from + 1..] + rest;
      assert (copies + rest)[0] == Copy(f, from);
    }
  }

  lemma {:induction false} NameStays(r: Record, name: string)
    requires SteadyName(r, name)
    ensures FindField(UnrolledRecord(r).fields, name) == FindField(r.fields, name)
  {
    if r.kind.Struct? { LookupStays(r.fields, name); }
  }

  lemma {:induction false} LayeredStays(d: Depth, r: Record)
    requires Layered(d, r) && SteadyRecord(r)
    ensures Layered(d, UnrolledRecord(r))
  {
    var r' := UnrolledRecord(r);
    forall f | f in r'.fields && f.possibleValues.Some?
      ensures ValuesBelow(d, r', f.possibleValues.value, d(f.name))
    {
      UnrolledAre(r.fields, f);
      var vs := f.possibleValues.value;
      forall i | 0 <= i < |vs| && vs[i].IntValue?
        ensures NumBelow(d, r', vs[i].num, d(f.name))
      {
        NumBelowStays(d, r, vs[i].num, d(f.name));
      }
    }
  }

  lemma {:induction false} NumBelowStays(d: Depth, r: Record, num: NumValue<int>, limit: nat)
    requires SteadyNum(r, num) && NumBelow(d, r, num, limit)
    ensures NumBelow(d, UnrolledRecord(r), num, limit)
  {
    match num
    case Single(v) => if v.Reference? { NameStays(r, v.ref.name); }
    case Range(start, end) =>
      if start.Reference? { NameStays(r, start.ref.name); }
      if end.Reference? { NameStays(r, end.ref.name); }
  }

  /* Ranges */

  lemma {:induction false} ValRangesStay(d: Depth, deps: map<string, int>, r: Record, v: ValOrRef<int>, limit: nat)
    requires Layered(d, r) && Below(d, r, v, limit) && SteadyRecord(r) && SteadyVal(r, v)
    requires Layered(d, UnrolledRecord(r))
    ensures Below(d, UnrolledRecord(r), v, limit)
    ensures ValRanges(d, deps, UnrolledRecord(r), v, limit) == ValRanges(d, deps, r, v, limit)
    decreases limit, 0
  {
    if v.Reference? {
      NameStays(r, v.ref.name);
      var found := FindField(r.fields, v.ref.name);
      if found.Some? && v.ref.name !in deps { PossibleRangesStay(d, deps, r, found.value); }
    }
  }

  lemma {:induction false} NumRangesStay(d: Depth, deps: map<string, int>, r: Record, num: NumValue<int>, limit: nat)
    requires Layered(d, r) && NumBelow(d, r, num, limit) && SteadyRecord(r) && SteadyNum(r, num)
    requires Layered(d, UnrolledRecord(r))
    ensures NumBelow(d, UnrolledRecord(r), num, limit)
    ensures NumRanges(d, deps, UnrolledRecord(r), num, limit) == NumRanges(d, deps, r, num, limit)
    decreases limit, 1
  {
    match num
    case Single(v) => ValRangesStay(d, deps, r, v, limit);
    case Range(start, end) =>
      ValRangesStay(d, deps, r, start, limit);
      ValRangesStay(d, deps, r, end, limit);
  }

  lemma {:induction false} ValuesRangesStay(d: Depth, deps: map<string, int>, r: Record, vs: seq<FieldValue>, limit: nat)
    requires Layered(d, r) && ValuesBelow(d, r, vs, limit) && SteadyRecord(r) && SteadyValues(r, vs)
    requires Layered(d, UnrolledRecord(r))
    ensures ValuesBelow(d, UnrolledRecord(r), vs, limit)
    ensures ValuesRanges(d, deps, UnrolledRecord(r), vs, limit) == ValuesRanges(d, deps, r, vs, limit)
    decreases limit, 2, |vs|
  {
    forall i | 0 <= i < |vs| && vs[i].IntValue?
      ensures NumBelow(d, UnrolledRecord(r), vs[i].num, limit)
    {
      NumBelowStays(d, r, vs[i].num, limit);
    }
    if vs != [] {
      var last := vs[|vs| - 1];
      ValuesRangesStay(d, deps, r, vs[..|vs| - 1], limit);
      if last.IntValue? { NumRangesStay(d, deps, r, last.num, limit); }
    }
  }

  lemma {:induction false} PossibleRangesStay(d: Depth, deps: map<string, int>, r: Record, f: Field)
    requires Layered(d, r) && f in r.fields && f in UnrolledRecord(r).fields && SteadyRecord(r)
    requires Layered(d, UnrolledRecord(r))
    ensures PossibleRanges(d, deps, UnrolledRecord(r), f) == PossibleRanges(d, deps, r, f)
    decreases d(f.name), 3
  {
    if f.possibleValues.Some? {
      ValuesRangesStay(d, deps, r, f.possibleValues.value, d(f.name));
    }
  }

  lemma {:induction false} SizeRangesStay(d: Depth, deps: map<string, int>, r: Record, size: Option<SizeDescriptor>)
    requires Layered(d, r) && SteadyRecord(r) && SteadySize(r, size)
    requires Layered(d, UnrolledRecord(r))
    ensures SizeRanges(d, deps, UnrolledRecord(r), size) == SizeRanges(d, deps, r, size)
  {
    if size.Some? {
      NumRangesStay(d, deps, r, ClampedSize(size.value), TopOf(d, size.value));
    }
  }

  /* Minimum sizes */

  lemma {:induction false} GroundedStays(t: Named, d: string -> Depth, rank: string -> nat)
    requires Grounded(t, d, rank) && Steady(t)
    ensures Grounded(Unrolled(t), d, rank)
  {
    var t' := Unrolled(t);
    forall n | n in t'
      ensures t'[n].name == n && Layered(d(n), t'[n])
    {
      LayeredStays(d(n), t[n]);
    }
    forall n, g | n in t' && g in t'[n].fields && RecordRef(g).Some? && RecordRef(g).value in t'
      ensures rank(RecordRef(g).value) < rank(n)
    {
      if t[n].kind.Struct? {
        UnrolledAre(t[n].fields, g);
        if g !in t[n].fields {
          var f, i :| f in t[n].fields && Unrollable(f) && 0 <= i < Count(f) && g == Copy(f, i);
          assert RecordRef(g) == RecordRef(f);
        }
      }
    }
  }

  /** A schema with its orders, and the assumptions in one place. */
  datatype Setting = Setting(t: Named, d: string -> Depth, rank: string -> nat)

  ghost predicate Fit(s: Setting) {
    Grounded(s.t, s.d, s.rank) && Grounded(Unrolled(s.t), s.d, s.rank) && Steady(s.t) && Allocatable(s.t)
  }

  type FitSetting = s: Setting | Fit(s) witness Setting(map[], n => m => 0, n => 0)

  ghost function ItemBefore(s: FitSetting, deps: map<string, int>, f: Field): nat {
    if RecordRef(f).Some? && RecordRef(f).value in s.t then RecordMin(s.t, s.d, s.rank, deps, s.t[RecordRef(f).value]) else 0
  }

  ghost function ItemAfter(s: FitSetting, deps: map<string, int>, f: Field): nat {
    if RecordRef(f).Some? && RecordRef(f).value in s.t
    then RecordMin(Unrolled(s.t), s.d, s.rank, deps, UnrolledRecord(s.t[RecordRef(f).value])) else 0
  }

  lemma {:induction false} SumModulo(a: int, b: int, x: int, y: int)
    requires a % WORD_SIZE == b % WORD_SIZE && x % WORD_SIZE == y % WORD_SIZE
    ensures (a + x) % WORD_SIZE == (b + y) % WORD_SIZE
  {
    var p, q := a / WORD_SIZE - b / WORD_SIZE, x / WORD_SIZE - y / WORD_SIZE;
    assert a == b + p * WORD_SIZE && x == y + q * WORD_SIZE;
    SameModulo(b + y, p + q);
  }

  lemma {:induction false} SameModulo(n: int, k: int)
    ensures (n + k * WORD_SIZE) % WORD_SIZE == n % WORD_SIZE
  {
  }

  /* Sums over unrolled fields */

  ghost function SumOf(m: Field -> nat, fs: seq<Field>): nat {
    if fs == [] then 0 else m(fs[0]) + SumOf(m, fs[1..])
  }

  lemma {:induction false} SumConcat(m: Field -> nat, fs: seq<Field>, gs: seq<Field>)
    ensures SumOf(m, fs + gs) == SumOf(m, fs) + SumOf(m, gs)
  {
    if fs == [] {
      assert fs + gs == gs;
    } else {
      SumConcat(m, fs[1..], gs);
      assert (fs + gs)[1..] == fs[1..] + gs;
    }
  }

  lemma {:induction false} SumCopies(m: Field -> nat, f: Field, from: nat, each: nat)
    requires Unrollable(f) && from <= Count(f) && forall i: nat | i < Count(f) :: m(Copy(f, i)) == each
    ensures SumOf(m, Copies(f, Count(f))[from..]) == (Count(f) - from) * each
    decreases Count(f) - from
  {
    if from < Count(f) {
      SumCopies(m, f, from + 1, each);
      assert Copies(f, Count(f))[from..][1..] == Copies(f, Count(f))[from + 1..];
      assert Copies(f, Count(f))[from..][0] == Copy(f, from);
      OneMoreTime(Count(f) - from, each);
    }
  }

  /** The copies of `f` together weigh what it did, or else it stays and weighs the same. */
  ghost predicate SameWeight(m: Field -> nat, m': Field -> nat, each: Field -> nat, f: Field) {
    if Unrollable(f) then
      && m(f) % WORD_SIZE == (Count(f) * each(f)) % WORD_SIZE
      && forall i: nat | i < Count(f) :: m'(Copy(f, i)) == each(f)
    else m'(f) == m(f)
  }

  lemma {:induction false} SumUnrolled(m: Field -> nat, m': Field -> nat, each: Field -> nat, fs: seq<Field>)
    requires forall f | f in fs :: SameWeight(m, m', each, f)
    ensures SumOf(m', UnrolledFields(fs)) % WORD_SIZE == SumOf(m, fs) % WORD_SIZE
  {
    if fs != [] {
      var f := fs[0];
      assert SameWeight(m, m', each, f);
      SumUnrolled(m, m', each, fs[1..]);
      SumConcat(m', UnrolledField(f), UnrolledFields(fs[1..]));
      if Unrollable(f) {
        SumCopies(m', f, 0, each(f));
        assert Copies(f, Count(f))[0..] == UnrolledField(f);
      } else {
        assert UnrolledField(f)[1..] == [];
      }
      SumModulo(SumOf(m', UnrolledField(f)), m(f), SumOf(m', UnrolledFields(fs[1..])), SumOf(m, fs[1..]));
    }
  }

  lemma {:induction false} FieldsMinIsSum(t: Named, d: string -> Depth, rank: string -> nat, deps: map<string, int>, r: Record, k: nat, m: Field -> nat)
    requires Grounded(t, d, rank) && r.name in t && t[r.name] == r && k <= |r.fields|
    requires forall f | f in r.fields :: m(f) == FieldMin(t, d, rank, deps, r, f)
    ensures FieldsMin(t, d, rank, deps, r, k) == SumOf(m, r.fields[..k])
  {
    if k > 0 {
      FieldsMinIsSum(t, d, rank, deps, r, k - 1, m);
      assert r.fields[..k] == r.fields[..k - 1] + [r.fields[k - 1]];
      SumConcat(m, r.fields[..k - 1], [r.fields[k - 1]]);
      assert SumOf(m, [r.fields[k - 1]]) == m(r.fields[k - 1]) + SumOf(m, []);
    }
  }

  /* Minimum sizes */

  lemma {:induction false} FitRecord(s: FitSetting, n: string)
    requires n in s.t
    ensures Layered(s.d(n), s.t[n]) && Layered(s.d(n), UnrolledRecord(s.t[n])) && SteadyRecord(s.t[n])
    ensures s.t[n].name == n && UnrolledRecord(s.t[n]).name == n
  {
    assert Unrolled(s.t)[n] == UnrolledRecord(s.t[n]);
  }

  lemma {:induction false} RecordMinStays(s: FitSetting, deps: map<string, int>, n: string)
    requires n in s.t
    ensures RecordMin(Unrolled(s.t), s.d, s.rank, deps, UnrolledRecord(s.t[n])) == RecordMin(s.t, s.d, s.rank, deps, s.t[n])
    decreases s.rank(n), 2, 0
  {
    FitRecord(s, n);
    match s.t[n].kind
    case Struct => StructMinStays(s, deps, n);
    case Union => if s.t[n].fields != [] { AlternativesAgree(s, deps, n, |s.t[n].fields|); }
  }

  lemma {:induction false} AlternativesAgree(s: FitSetting, deps: map<string, int>, n: string, k: nat)
    requires n in s.t && s.t[n].kind.Union? && 0 < k <= |s.t[n].fields|
    ensures AlternativesMin(Unrolled(s.t), s.d, s.rank, deps, UnrolledRecord(s.t[n]), k)
         == AlternativesMin(s.t, s.d, s.rank, deps, s.t[n], k)
    decreases s.rank(n), 1, k
  {
    ItemsAgree(s, deps, n, s.t[n].fields[k - 1]);
    if k > 1 { AlternativesAgree(s, deps, n, k - 1); }
  }

  lemma {:induction false} ItemsAgree(s: FitSetting, deps: map<string, int>, n: string, f: Field)
    requires n in s.t && f in s.t[n].fields
    ensures ItemAfter(s, deps, f) == ItemBefore(s, deps, f)
    decreases s.rank(n), 0, 0
  {
    if RecordRef(f).Some? && RecordRef(f).value in s.t {
      RecordMinStays(s, deps, RecordRef(f).value);
    }
  }

  lemma {:induction false} StructMinStays(s: FitSetting, deps: map<string, int>, n: string)
    requires n in s.t && s.t[n].kind.Struct?
    ensures RecordMin(Unrolled(s.t), s.d, s.rank, deps, UnrolledRecord(s.t[n])) == RecordMin(s.t, s.d, s.rank, deps, s.t[n])
    decreases s.rank(n), 1, 0
  {
    FitRecord(s, n);
    var r, r', t' := s.t[n], UnrolledRecord(s.t[n]), Unrolled(s.t);
    var m: Field -> nat := f => if f in r.fields then FieldMin(s.t, s.d, s.rank, deps, r, f) else 0;
    var m': Field -> nat := f => if f in r'.fields then FieldMin(t', s.d, s.rank, deps, r', f) else 0;
    forall f | f in r.fields
      ensures SameWeight(m, m', g => ItemAfter(s, deps, g), f)
    {
      UnrolledAre(r.fields, f);
      ItemsAgree(s, deps, n, f);
      if Unrollable(f) {
        ArrayMin(s, deps, n, f);
        forall i: nat | i < Count(f)
          ensures m'(Copy(f, i)) == ItemAfter(s, deps, f)
        {
          UnrolledAre(r.fields, Copy(f, i));
          assert RecordRef(Copy(f, i)) == RecordRef(f);
        }
      } else {
        FieldMinStays(s, deps, n, f);
      }
    }
    SumUnrolled(m, m', g => ItemAfter(s, deps, g), r.fields);
    FieldsMinIsSum(s.t, s.d, s.rank, deps, r, |r.fields|, m);
    FieldsMinIsSum(t', s.d, s.rank, deps, r', |r'.fields|, m');
    assert r.fields[..|r.fields|] == r.fields && r'.fields[..|r'.fields|] == r'.fields;
  }

  /** What an unrollable array counts for. */
  lemma {:induction false} ArrayMin(s: FitSetting, deps: map<string, int>, n: string, f: Field)
    requires n in s.t && f in s.t[n].fields && Unrollable(f) && ItemAfter(s, deps, f) == ItemBefore(s, deps, f)
    ensures FieldMin(s.t, s.d, s.rank, deps, s.t[n], f) % WORD_SIZE == (Count(f) * ItemAfter(s, deps, f)) % WORD_SIZE
  {
    if RecordRef(f).value in s.t {
      var q := s.t[RecordRef(f).value];
      FitRecord(s, RecordRef(f).value);
      LiteralSize(s.d(q.name), deps, q, Count(f));
      var each := ItemBefore(s, deps, f);
      assert FieldMin(s.t, s.d, s.rank, deps, s.t[n], f) == if each == 0 then 0 else Wrapped(Count(f) * each);
      WrappedAgain(Count(f), each);
    }
  }

  lemma {:induction false} WrappedAgain(len: nat, each: nat)
    ensures (if each == 0 then 0 else Wrapped(len * each)) % WORD_SIZE == (len * each) % WORD_SIZE
  {
  }

  lemma {:induction false} LiteralSize(d: Depth, deps: map<string, int>, q: Record, n: nat)
    requires Layered(d, q) && n <= INT_MAX
    ensures First(SizeRanges(d, deps, q, Some(Single(Val(n))))) == n
  {
    assert NumRanges(d, deps, q, ClampedSize(Single(Val(n))), TopOf(d, Single(Val(n)))) == [Interval(n, n)];
  }

  lemma {:induction false} FieldMinStays(s: FitSetting, deps: map<string, int>, n: string, f: Field)
    requires n in s.t && f in s.t[n].fields && f in UnrolledRecord(s.t[n]).fields && ItemAfter(s, deps, f) == ItemBefore(s, deps, f)
    ensures FieldMin(Unrolled(s.t), s.d, s.rank, deps, UnrolledRecord(s.t[n]), f) == FieldMin(s.t, s.d, s.rank, deps, s.t[n], f)
  {
    FitRecord(s, n);
    match f.kind
    case Array =>
      if RecordRef(f).Some? && RecordRef(f).value in s.t {
        FitRecord(s, RecordRef(f).value);
        var q := s.t[RecordRef(f).value];
        SizeRangesStay(s.d(q.name), deps, q, f.len);
      }
    case Record =>
    case _ =>
      SizeRangesStay(s.d(n), deps, s.t[n], ByteSize(f));
  }

  /** For all known values `deps`, no record's minimum size changes. */
  lemma {:induction false} UnrollKeepsMinSize(t: Named, d: string -> Depth, rank: string -> nat, deps: map<string, int>, n: string)
    requires Grounded(t, d, rank) && Steady(t) && Allocatable(t) && n in t
    ensures Grounded(Unrolled(t), d, rank)
    ensures RecordMin(Unrolled(t), d, rank, deps, Unrolled(t)[n]) == RecordMin(t, d, rank, deps, t[n])
  {
    GroundedStays(t, d, rank);
    RecordMinStays(Setting(t, d, rank), deps, n);
  }
}
