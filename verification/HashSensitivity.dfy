/** What the structural hash does see: with a hash function that confuses nothing, two fields or two
    records have one hash exactly if they have one structure. */
module HashSensitivity {
  import opened Options
  import opened Schema
  import opened Intervals
  import opened IntRanges
  import opened Sorting
  import opened StructuralHash

  /** The hash function tells all inputs apart, and its results from the word for nothing. */
  ghost predicate Separates(h: Hasher) {
    && (forall a, b :: h.mix(a) == h.mix(b) ==> a == b)
    && (forall a, b :: h.bytes(a) == h.bytes(b) ==> a == b)
    && (forall a, b :: h.text(a) == h.text(b) ==> a == b)
    && (forall a :: h.mix(a) != Word(0)) && forall a :: h.bytes(a) != Word(0)
  }

  /** What a field is hashed in: the hashes of everything it may refer to, and its record. */
  datatype View = View(hashes: map<Target, Word>, record: string)

  function Hashed(p: View, ref: Ref): Word {
    match ref.kind
    case ToField => Look(p.hashes, FieldOf(p.record, ref.name))
    case ToRecord => Look(p.hashes, RecordOf(ref.name))
  }

  /* One structure */

  ghost predicate SameRef(p: View, q: View, a: Ref, b: Ref) {
    a.kind == b.kind && Hashed(p, a) == Hashed(q, b)
  }

  ghost predicate SameVal<T>(p: View, q: View, x: ValOrRef<T>, y: ValOrRef<T>, same: (T, T) -> bool) {
    match x
    case Val(a) => y.Val? && same(a, y.value)
    case Reference(a) => y.Reference? && SameRef(p, q, a, y.ref)
  }

  ghost predicate SameNum<T>(p: View, q: View, m: NumValue<T>, n: NumValue<T>, same: (T, T) -> bool) {
    match m
    case Single(x) => n.Single? && SameVal(p, q, x, n.value, same)
    case Range(start, end) => n.Range? && SameVal(p, q, start, n.start, same) && SameVal(p, q, end, n.end, same)
  }

  predicate Equal<T(==)>(a: T, b: T) { a == b }

  predicate SameBits(a: Schema.Float, b: Schema.Float) { a.bits == b.bits }

  ghost predicate SameSize(p: View, q: View, m: Option<SizeDescriptor>, n: Option<SizeDescriptor>) {
    if m.None? then n.None? else n.Some? && SameNum(p, q, m.value, n.value, Equal)
  }

  ghost predicate SameValue(p: View, q: View, v: FieldValue, w: FieldValue) {
    match v
    case IntValue(num) => w.IntValue? && SameNum(p, q, num, w.num, Equal)
    case FloatValue(num) => w.FloatValue? && SameNum(p, q, num, w.float, SameBits)
    case StringValue(text) => w.StringValue? && SameVal(p, q, text, w.text, Equal)
    case BytesValue(bytes) => w.BytesValue? && SameVal(p, q, bytes, w.bytes, Equal)
  }

  ghost predicate SameList(p: View, q: View, vs: seq<FieldValue>, ws: seq<FieldValue>) {
    |vs| == |ws| && forall i | 0 <= i < |vs| :: SameValue(p, q, vs[i], ws[i])
  }

  ghost predicate SameItems(p: View, q: View, m: Option<Ref>, n: Option<Ref>) {
    if m.None? then n.None? else n.Some? && SameRef(p, q, m.value, n.value)
  }

  function Ending(t: Option<Terminator>): Option<seq<int>> {
    match t
    case None => None
    case Some(ByteSequence(bytes)) => Some(bytes)
    case Some(CharSequence(utf8)) => Some(utf8)
  }

  ghost predicate SameArg(p: View, q: View, a: FdpArg, b: FdpArg) {
    match a
    case IntArg(n) => b == IntArg(n)
    case FloatArg(f) => b.FloatArg? && b.float.asInteger == f.asInteger
    case RefArg(ref) => b.RefArg? && SameRef(p, q, ref, b.ref)
  }

  /** A size of 0 counts as none. */
  ghost predicate SameCall(p: View, q: View, m: Option<FdpCall>, n: Option<FdpCall>) {
    if m.None? then n.None?
    else
      && n.Some? && m.value.api == n.value.api
      && (m.value.typeSize == n.value.typeSize || {m.value.typeSize, n.value.typeSize} == {None, Some(0)})
      && |m.value.args| == |n.value.args|
      && forall i | 0 <= i < |m.value.args| :: SameArg(p, q, m.value.args[i], n.value.args[i])
  }

  /** Kinds fall into four classes. */
  predicate SameClass(a: FieldKind, b: FieldKind) {
    (a.Float? <==> b.Float?) && (a.Array? <==> b.Array?) && (a.Record? <==> b.Record?)
  }

  predicate Default(endian: Endianness, e: Option<Endianness>, e': Endianness) {
    e' == if e.Some? then e.value else endian
  }

  ghost predicate SameField(p: View, q: View, endian: Endianness, endian': Endianness, f: Field, g: Field)
    requires GoodRanges(f) && GoodRanges(g)
  {
    && SameClass(f.kind, g.kind)
    && SameSize(p, q, f.len, g.len) && SameSize(p, q, f.byteSize, g.byteSize)
    && (if f.possibleValues.None? then g.possibleValues.None?
        else g.possibleValues.Some? && SameList(p, q, Values(f.kind, f.possibleValues.value), Values(g.kind, g.possibleValues.value)))
    && SameItems(p, q, f.items, g.items)
    && Ending(f.terminator) == Ending(g.terminator)
    && f.stringFormat == g.stringFormat
    && (exists e :: Default(endian, f.endianness, e) && Default(endian', g.endianness, e))
    && SameCall(p, q, f.fdpCall, g.fdpCall)
  }

  /* Integers fit their types */

  predicate NumFits(num: NumValue<int>, lo: int, hi: int) {
    match num
    case Single(x) => x.Val? ==> lo <= x.value <= hi
    case Range(start, end) => (start.Val? ==> lo <= start.value <= hi) && (end.Val? ==> lo <= end.value <= hi)
  }

  predicate SizeFits(size: Option<SizeDescriptor>) {
    size.Some? ==> NumFits(size.value, 0, WORD_SIZE - 1)
  }

  predicate ValuesFit(vs: seq<FieldValue>) {
    forall i | 0 <= i < |vs| && vs[i].IntValue? :: NumFits(vs[i].num, INT_MIN, INT_MAX)
  }

  predicate FieldFits(f: Field)
    requires GoodRanges(f)
  {
    SizeFits(f.len) && SizeFits(f.byteSize) && (f.possibleValues.Some? ==> ValuesFit(f.possibleValues.value))
  }

  lemma {:induction false} WordsApart(a: int, b: int, lo: int, hi: int)
    requires lo <= a <= hi && lo <= b <= hi && -WORD_SIZE <= lo && hi < WORD_SIZE && hi - lo < WORD_SIZE
    ensures AsWord(a) == AsWord(b) <==> a == b
  {
  }

  /* Terms */

  lemma {:induction false} MixPair(h: Hasher, env: map<Target, Word>, t: Term, u: Term)
    ensures Eval(h, env, Mix([t, u])) == h.mix([Eval(h, env, t), Eval(h, env, u)])
  {
    var parts := [t, u];
    assert seq(|parts|, i requires 0 <= i < |parts| => Eval(h, env, parts[i])) == [Eval(h, env, t), Eval(h, env, u)];
  }

  lemma {:induction false} PairsAgree(h: Hasher, e: map<Target, Word>, e': map<Target, Word>, t: Term, u: Term, t': Term, u': Term)
    requires Separates(h)
    ensures Eval(h, e, Mix([t, u])) == Eval(h, e', Mix([t', u'])) <==>
            Eval(h, e, t) == Eval(h, e', t') && Eval(h, e, u) == Eval(h, e', u')
  {
    MixPair(h, e, t, u);
    MixPair(h, e', t', u');
    var a, b := [Eval(h, e, t), Eval(h, e, u)], [Eval(h, e', t'), Eval(h, e', u')];
    assert a == b <==> a[0] == b[0] && a[1] == b[1];
  }

  lemma {:induction false} RefsAgree(h: Hasher, p: View, q: View, a: Ref, b: Ref)
    requires Separates(h)
    ensures Eval(h, p.hashes, RefTerm(p.record, a)) == Eval(h, q.hashes, RefTerm(q.record, b)) <==> SameRef(p, q, a, b)
  {
    PairsAgree(h, p.hashes, q.hashes, Lit(if a.kind.ToField? then Word(0) else Word(1)), Ask(TargetOf(p.record, a)),
               Lit(if b.kind.ToField? then Word(0) else Word(1)), Ask(TargetOf(q.record, b)));
  }

  /** On these two constants the words tell apart what `same` does. */
  ghost predicate ToldApart<T>(x: ValOrRef<T>, y: ValOrRef<T>, word: T -> Word, same: (T, T) -> bool) {
    x.Val? && y.Val? ==> (word(x.value) == word(y.value) <==> same(x.value, y.value))
  }

  lemma {:induction false} ValsAgree<T>(h: Hasher, p: View, q: View, x: ValOrRef<T>, y: ValOrRef<T>, word: T -> Word, same: (T, T) -> bool)
    requires Separates(h) && ToldApart(x, y, word, same)
    ensures Eval(h, p.hashes, ValOrRefTerm(p.record, x, word)) == Eval(h, q.hashes, ValOrRefTerm(q.record, y, word)) <==> SameVal(p, q, x, y, same)
  {
    var t := if x.Val? then Lit(word(x.value)) else RefTerm(p.record, x.ref);
    var u := if y.Val? then Lit(word(y.value)) else RefTerm(q.record, y.ref);
    PairsAgree(h, p.hashes, q.hashes, Lit(if x.Val? then Word(0) else Word(1)), t, Lit(if y.Val? then Word(0) else Word(1)), u);
    if x.Reference? && y.Reference? { RefsAgree(h, p, q, x.ref, y.ref); }
  }

  ghost predicate NumsToldApart<T>(m: NumValue<T>, n: NumValue<T>, word: T -> Word, same: (T, T) -> bool) {
    match m
    case Single(x) => n.Single? ==> ToldApart(x, n.value, word, same)
    case Range(start, end) => n.Range? ==> ToldApart(start, n.start, word, same) && ToldApart(end, n.end, word, same)
  }

  lemma {:induction false} NumsAgree<T>(h: Hasher, p: View, q: View, m: NumValue<T>, n: NumValue<T>, word: T -> Word, same: (T, T) -> bool)
    requires Separates(h) && NumsToldApart(m, n, word, same)
    ensures Eval(h, p.hashes, NumTerm(p.record, m, word)) == Eval(h, q.hashes, NumTerm(q.record, n, word)) <==> SameNum(p, q, m, n, same)
  {
    var t := if m.Single? then ValOrRefTerm(p.record, m.value, word)
             else Mix([ValOrRefTerm(p.record, m.start, word), ValOrRefTerm(p.record, m.end, word)]);
    var u := if n.Single? then ValOrRefTerm(q.record, n.value, word)
             else Mix([ValOrRefTerm(q.record, n.start, word), ValOrRefTerm(q.record, n.end, word)]);
    PairsAgree(h, p.hashes, q.hashes, Lit(if m.Single? then Word(0) else Word(1)), t, Lit(if n.Single? then Word(0) else Word(1)), u);
    if m.Single? && n.Single? {
      ValsAgree(h, p, q, m.value, n.value, word, same);
    }
    if m.Range? && n.Range? {
      ValsAgree(h, p, q, m.start, n.start, word, same);
      ValsAgree(h, p, q, m.end, n.end, word, same);
      PairsAgree(h, p.hashes, q.hashes, ValOrRefTerm(p.record, m.start, word), ValOrRefTerm(p.record, m.end, word),
                 ValOrRefTerm(q.record, n.start, word), ValOrRefTerm(q.record, n.end, word));
    }
  }

  lemma {:induction false} IntsToldApart(m: NumValue<int>, n: NumValue<int>, lo: int, hi: int)
    requires NumFits(m, lo, hi) && NumFits(n, lo, hi) && -WORD_SIZE <= lo && hi < WORD_SIZE && hi - lo < WORD_SIZE
    ensures NumsToldApart(m, n, AsWord, Equal)
  {
    forall a, b | lo <= a <= hi && lo <= b <= hi
      ensures AsWord(a) == AsWord(b) <==> a == b
    {
      WordsApart(a, b, lo, hi);
    }
  }

  /** A mix is no empty slot. */
  lemma {:induction false} MixIsSomething(h: Hasher, env: map<Target, Word>, parts: seq<Term>)
    requires Separates(h)
    ensures Eval(h, env, Mix(parts)) != Word(0)
  {
  }

  lemma {:induction false} SizesAgree(h: Hasher, p: View, q: View, m: Option<SizeDescriptor>, n: Option<SizeDescriptor>)
    requires Separates(h) && SizeFits(m) && SizeFits(n)
    ensures Eval(h, p.hashes, SizeTerm(p.record, m)) == Eval(h, q.hashes, SizeTerm(q.record, n)) <==> SameSize(p, q, m, n)
  {
    if m.Some? { NumIsSomething(h, p, m.value, AsWord); }
    if n.Some? { NumIsSomething(h, q, n.value, AsWord); }
    if m.Some? && n.Some? {
      IntsToldApart(m.value, n.value, 0, WORD_SIZE - 1);
      NumsAgree(h, p, q, m.value, n.value, AsWord, Equal);
    }
  }

  lemma {:induction false} NumIsSomething<T>(h: Hasher, p: View, m: NumValue<T>, word: T -> Word)
    requires Separates(h)
    ensures Eval(h, p.hashes, NumTerm(p.record, m, word)) != Word(0)
  {
    MixIsSomething(h, p.hashes, NumTerm(p.record, m, word).parts);
  }

  function ValueTag(v: FieldValue): Word {
    match v
    case IntValue(_) => Word(0)
    case FloatValue(_) => Word(1)
    case StringValue(_) => Word(2)
    case BytesValue(_) => Word(3)
  }

  function ValueBody(h: Hasher, record: string, v: FieldValue): Term {
    match v
    case IntValue(num) => NumTerm(record, num, AsWord)
    case FloatValue(num) => NumTerm(record, num, FloatBits)
    case StringValue(text) => ValOrRefTerm(record, text, h.text)
    case BytesValue(bytes) => ValOrRefTerm(record, bytes, h.bytes)
  }

  lemma {:induction false} ValuesAgree(h: Hasher, p: View, q: View, v: FieldValue, w: FieldValue)
    requires Separates(h)
    requires v.IntValue? ==> NumFits(v.num, INT_MIN, INT_MAX)
    requires w.IntValue? ==> NumFits(w.num, INT_MIN, INT_MAX)
    ensures Eval(h, p.hashes, ValueTerm(h, p.record, v)) == Eval(h, q.hashes, ValueTerm(h, q.record, w)) <==> SameValue(p, q, v, w)
  {
    PairsAgree(h, p.hashes, q.hashes, Lit(ValueTag(v)), ValueBody(h, p.record, v), Lit(ValueTag(w)), ValueBody(h, q.record, w));
    BodiesAgree(h, p, q, v, w);
  }

  lemma {:induction false} BodiesAgree(h: Hasher, p: View, q: View, v: FieldValue, w: FieldValue)
    requires Separates(h)
    requires v.IntValue? ==> NumFits(v.num, INT_MIN, INT_MAX)
    requires w.IntValue? ==> NumFits(w.num, INT_MIN, INT_MAX)
    ensures ValueTag(v) == ValueTag(w) ==>
              (Eval(h, p.hashes, ValueBody(h, p.record, v)) == Eval(h, q.hashes, ValueBody(h, q.record, w)) <==> SameValue(p, q, v, w))
  {
    if ValueTag(v) == ValueTag(w) {
      match v
      case IntValue(num) =>
        IntsToldApart(num, w.num, INT_MIN, INT_MAX);
        NumsAgree(h, p, q, num, w.num, AsWord, Equal);
      case FloatValue(num) =>
        NumsAgree(h, p, q, num, w.float, FloatBits, SameBits);
      case StringValue(text) =>
        ValsAgree(h, p, q, text, w.text, h.text, Equal);
      case BytesValue(bytes) =>
        ValsAgree(h, p, q, bytes, w.bytes, h.bytes, Equal);
    }
  }

  lemma {:induction false} MixesAgree(h: Hasher, e: map<Target, Word>, e': map<Target, Word>, ts: seq<Term>, us: seq<Term>)
    requires Separates(h)
    ensures Eval(h, e, Mix(ts)) == Eval(h, e', Mix(us)) <==> |ts| == |us| && forall i | 0 <= i < |ts| :: Eval(h, e, ts[i]) == Eval(h, e', us[i])
  {
    var a := seq(|ts|, i requires 0 <= i < |ts| => Eval(h, e, ts[i]));
    var b := seq(|us|, i requires 0 <= i < |us| => Eval(h, e', us[i]));
    assert Eval(h, e, Mix(ts)) == h.mix(a) && Eval(h, e', Mix(us)) == h.mix(b);
    if a == b {
      forall i | 0 <= i < |ts|
        ensures Eval(h, e, ts[i]) == Eval(h, e', us[i])
      {
        assert a[i] == b[i];
      }
    }
    if |ts| == |us| && forall i | 0 <= i < |ts| :: Eval(h, e, ts[i]) == Eval(h, e', us[i]) {
      assert a == b;
    }
  }

  lemma {:induction false} ListsAgree(h: Hasher, p: View, q: View, vs: seq<FieldValue>, ws: seq<FieldValue>)
    requires Separates(h) && ValuesFit(vs) && ValuesFit(ws)
    ensures Eval(h, p.hashes, Mix(ValueTerms(h, p.record, vs))) == Eval(h, q.hashes, Mix(ValueTerms(h, q.record, ws))) <==> SameList(p, q, vs, ws)
  {
    var ts, us := ValueTerms(h, p.record, vs), ValueTerms(h, q.record, ws);
    MixesAgree(h, p.hashes, q.hashes, ts, us);
    forall i | 0 <= i < |vs| && i < |ws|
      ensures Eval(h, p.hashes, ts[i]) == Eval(h, q.hashes, us[i]) <==> SameValue(p, q, vs[i], ws[i])
    {
      ValuesAgree(h, p, q, vs[i], ws[i]);
    }
  }

  /** Normalising leaves integers in their type. */
  lemma {:induction false} OpenFits(vs: seq<FieldValue>)
    requires ValuesFit(vs)
    ensures ValuesFit(Open(vs))
  {
    if vs != [] {
      var init, last := vs[..|vs| - 1], vs[|vs| - 1];
      assert forall i | 0 <= i < |init| :: init[i] == vs[i];
      OpenFits(init);
    }
  }

  lemma {:induction false} RangesFit(vs: seq<FieldValue>)
    requires ValuesFit(vs) && Ascending(vs)
    ensures ValuesFit(RangeValues(Ranges(vs)))
  {
    var rs := Ranges(vs);
    forall i | 0 <= i < |rs|
      ensures INT_MIN <= rs[i].lo <= INT_MAX && INT_MIN <= rs[i].hi <= INT_MAX
    {
      assert Inside(rs[i].lo, rs[i]) && Inside(rs[i].hi, rs[i]);
      InRange(vs, rs[i].lo);
      InRange(vs, rs[i].hi);
    }
  }

  lemma {:induction false} InRange(vs: seq<FieldValue>, x: int)
    requires ValuesFit(vs) && Ascending(vs) && Covers(Ranges(vs), x)
    ensures INT_MIN <= x <= INT_MAX
  {
    RangesDenote(vs, x);
    var i :| 0 <= i < |vs| && IsConstant(vs[i]) && Inside(x, ConstantRange(vs[i]));
    assert vs[i].IntValue?;
  }

  lemma {:induction false} NormalisedFits(kind: FieldKind, vs: seq<FieldValue>)
    requires ValuesFit(vs) && (kind.Int? ==> Ascending(vs))
    ensures ValuesFit(Values(kind, vs))
  {
    if kind.Int? {
      OpenFits(vs);
      RangesFit(vs);
      BothFit(Open(vs), RangeValues(Ranges(vs)));
    }
  }

  lemma {:induction false} BothFit(vs: seq<FieldValue>, ws: seq<FieldValue>)
    requires ValuesFit(vs) && ValuesFit(ws)
    ensures ValuesFit(vs + ws)
  {
  }

  lemma {:induction false} FieldValuesAgree(h: Hasher, p: View, q: View, f: Field, g: Field)
    requires Separates(h) && GoodRanges(f) && GoodRanges(g) && FieldFits(f) && FieldFits(g)
    ensures Eval(h, p.hashes, ValuesTerm(h, p.record, f)) == Eval(h, q.hashes, ValuesTerm(h, q.record, g)) <==>
            (if f.possibleValues.None? then g.possibleValues.None?
             else g.possibleValues.Some? && SameList(p, q, Values(f.kind, f.possibleValues.value), Values(g.kind, g.possibleValues.value)))
  {
    if f.possibleValues.Some? {
      NormalisedFits(f.kind, f.possibleValues.value);
      MixIsSomething(h, p.hashes, ValueTerms(h, p.record, Values(f.kind, f.possibleValues.value)));
    }
    if g.possibleValues.Some? {
      NormalisedFits(g.kind, g.possibleValues.value);
      MixIsSomething(h, q.hashes, ValueTerms(h, q.record, Values(g.kind, g.possibleValues.value)));
    }
    if f.possibleValues.Some? && g.possibleValues.Some? {
      ListsAgree(h, p, q, Values(f.kind, f.possibleValues.value), Values(g.kind, g.possibleValues.value));
    }
  }

  lemma {:induction false} ItemsAgree(h: Hasher, p: View, q: View, m: Option<Ref>, n: Option<Ref>)
    requires Separates(h)
    ensures Eval(h, p.hashes, ItemsTerm(p.record, m)) == Eval(h, q.hashes, ItemsTerm(q.record, n)) <==> SameItems(p, q, m, n)
  {
    if m.Some? { MixIsSomething(h, p.hashes, RefTerm(p.record, m.value).parts); }
    if n.Some? { MixIsSomething(h, q.hashes, RefTerm(q.record, n.value).parts); }
    if m.Some? && n.Some? { RefsAgree(h, p, q, m.value, n.value); }
  }

  lemma {:induction false} ArgsAgree(h: Hasher, p: View, q: View, a: FdpArg, b: FdpArg)
    requires Separates(h)
    ensures Eval(h, p.hashes, ArgTerm(p.record, a)) == Eval(h, q.hashes, ArgTerm(q.record, b)) <==> SameArg(p, q, a, b)
  {
    var t := match a case IntArg(n) => Lit(n) case FloatArg(f) => Lit(f.asInteger) case RefArg(ref) => RefTerm(p.record, ref);
    var u := match b case IntArg(n) => Lit(n) case FloatArg(f) => Lit(f.asInteger) case RefArg(ref) => RefTerm(q.record, ref);
    var tag := match a case IntArg(_) => Word(0) case FloatArg(_) => Word(1) case RefArg(_) => Word(2);
    var tag' := match b case IntArg(_) => Word(0) case FloatArg(_) => Word(1) case RefArg(_) => Word(2);
    PairsAgree(h, p.hashes, q.hashes, Lit(tag), t, Lit(tag'), u);
    if a.RefArg? && b.RefArg? { RefsAgree(h, p, q, a.ref, b.ref); }
  }

  lemma {:induction false} MethodsAgree(h: Hasher, m: FdpMethod, n: FdpMethod)
    requires Separates(h)
    ensures MethodWord(h, m) == MethodWord(h, n) <==> m == n
  {
    var a := match m case Llvm(i) => [Word(0), Word(i)] case Jazzer(i) => [Word(1), Word(i)];
    var b := match n case Llvm(i) => [Word(0), Word(i)] case Jazzer(i) => [Word(1), Word(i)];
    assert a == b <==> a[0] == b[0] && a[1] == b[1];
  }

  lemma {:induction false} CallsAgree(h: Hasher, p: View, q: View, m: Option<FdpCall>, n: Option<FdpCall>)
    requires Separates(h)
    ensures Eval(h, p.hashes, CallTerm(h, p.record, m)) == Eval(h, q.hashes, CallTerm(h, q.record, n)) <==> SameCall(p, q, m, n)
  {
    if m.Some? { MixIsSomething(h, p.hashes, CallTerm(h, p.record, m).parts); }
    if n.Some? { MixIsSomething(h, q.hashes, CallTerm(h, q.record, n).parts); }
    if m.Some? && n.Some? {
      var ts, us := CallTerm(h, p.record, m).parts, CallTerm(h, q.record, n).parts;
      MixesAgree(h, p.hashes, q.hashes, ts, us);
      MethodsAgree(h, m.value.api, n.value.api);
      ArgListsAgree(h, p, q, m.value.args, n.value.args);
      assert SizeWord(m.value.typeSize) == SizeWord(n.value.typeSize) <==>
        (m.value.typeSize == n.value.typeSize || {m.value.typeSize, n.value.typeSize} == {None, Some(0)}) by {
        SizesOfTypes(m.value.typeSize, n.value.typeSize);
      }
      AllOfThree(h, p.hashes, q.hashes, ts, us);
    }
  }

  lemma {:induction false} SizesOfTypes(m: Option<nat>, n: Option<nat>)
    ensures SizeWord(m) == SizeWord(n) <==> m == n || {m, n} == {None, Some(0)}
  {
    if SizeWord(m) == SizeWord(n) && m != n {
      assert {m, n} == {None, Some(0)};
    }
    if {m, n} == {None, Some(0)} {
      assert m in {None, Some(0)} && n in {None, Some(0)};
    }
  }

  lemma {:induction false} AllOfThree(h: Hasher, e: map<Target, Word>, e': map<Target, Word>, ts: seq<Term>, us: seq<Term>)
    requires |ts| == |us| == 3
    ensures (forall i | 0 <= i < 3 :: Eval(h, e, ts[i]) == Eval(h, e', us[i])) <==>
            Eval(h, e, ts[0]) == Eval(h, e', us[0]) && Eval(h, e, ts[1]) == Eval(h, e', us[1]) && Eval(h, e, ts[2]) == Eval(h, e', us[2])
  {
  }

  lemma {:induction false} ArgListsAgree(h: Hasher, p: View, q: View, args: seq<FdpArg>, args': seq<FdpArg>)
    requires Separates(h)
    ensures Eval(h, p.hashes, Mix(ArgTerms(p.record, args))) == Eval(h, q.hashes, Mix(ArgTerms(q.record, args'))) <==>
            |args| == |args'| && forall i | 0 <= i < |args| :: SameArg(p, q, args[i], args'[i])
  {
    var ts, us := ArgTerms(p.record, args), ArgTerms(q.record, args');
    MixesAgree(h, p.hashes, q.hashes, ts, us);
    forall i | 0 <= i < |args| && i < |args'|
      ensures Eval(h, p.hashes, ts[i]) == Eval(h, q.hashes, us[i]) <==> SameArg(p, q, args[i], args'[i])
    {
      ArgsAgree(h, p, q, args[i], args'[i]);
    }
  }

  lemma {:induction false} LiteralsAgree(h: Hasher, endian: Endianness, endian': Endianness, f: Field, g: Field)
    requires Separates(h)
    ensures KindCode(f.kind) == KindCode(g.kind) <==> SameClass(f.kind, g.kind)
    ensures TerminatorWord(h, f.terminator) == TerminatorWord(h, g.terminator) <==> Ending(f.terminator) == Ending(g.terminator)
    ensures FormatWord(f.stringFormat) == FormatWord(g.stringFormat) <==> f.stringFormat == g.stringFormat
    ensures EndianWord(endian, f.endianness) == EndianWord(endian', g.endianness) <==>
            exists e :: Default(endian, f.endianness, e) && Default(endian', g.endianness, e)
  {
    var e := if f.endianness.Some? then f.endianness.value else endian;
    assert Default(endian, f.endianness, e);
  }

  /* Fields */

  lemma {:induction false} NineParts(h: Hasher, e: map<Target, Word>, e': map<Target, Word>, ts: seq<Term>, us: seq<Term>)
    requires Separates(h) && |ts| == |us| == 9
    ensures Eval(h, e, Mix(ts)) == Eval(h, e', Mix(us)) <==>
            && Eval(h, e, ts[0]) == Eval(h, e', us[0]) && Eval(h, e, ts[1]) == Eval(h, e', us[1]) && Eval(h, e, ts[2]) == Eval(h, e', us[2])
            && Eval(h, e, ts[3]) == Eval(h, e', us[3]) && Eval(h, e, ts[4]) == Eval(h, e', us[4]) && Eval(h, e, ts[5]) == Eval(h, e', us[5])
            && Eval(h, e, ts[6]) == Eval(h, e', us[6]) && Eval(h, e, ts[7]) == Eval(h, e', us[7]) && Eval(h, e, ts[8]) == Eval(h, e', us[8])
  {
    MixesAgree(h, e, e', ts, us);
  }

  lemma {:induction false} FieldsAgree(h: Hasher, p: View, q: View, endian: Endianness, endian': Endianness, f: Field, g: Field)
    requires Separates(h) && GoodRanges(f) && GoodRanges(g) && FieldFits(f) && FieldFits(g)
    ensures Eval(h, p.hashes, FieldTerm(h, endian, p.record, f)) == Eval(h, q.hashes, FieldTerm(h, endian', q.record, g)) <==>
            SameField(p, q, endian, endian', f, g)
  {
    NineParts(h, p.hashes, q.hashes, FieldParts(h, endian, p.record, f), FieldParts(h, endian', q.record, g));
    SizesAgree(h, p, q, f.len, g.len);
    SizesAgree(h, p, q, f.byteSize, g.byteSize);
    FieldValuesAgree(h, p, q, f, g);
    ItemsAgree(h, p, q, f.items, g.items);
    LiteralsAgree(h, endian, endian', f, g);
    CallsAgree(h, p, q, f.fdpCall, g.fdpCall);
  }

  /** The plain hashes of everything in a schema. */
  ghost function Hashes(h: Hasher, s: SaneRecords, rank: map<Target, nat>): map<Target, Word> {
    map a | a in rank :: Plain(h, s, rank, a)
  }

  lemma {:induction false} PlainIs(h: Hasher, s: SaneRecords, rank: map<Target, nat>, n: Target)
    requires Ranked(h, s, rank) && n in rank
    ensures Plain(h, s, rank, n) == Eval(h, Hashes(h, s, rank), TermOf(h, s, n))
  {
    var env := map a | a in rank && rank[a] < rank[n] :: Plain(h, s, rank, a);
    forall a | Asks(TermOf(h, s, n), a)
      ensures Look(env, a) == Look(Hashes(h, s, rank), a)
    {
      assert Edge(h, s, n, a);
    }
    EvalAgrees(h, env, Hashes(h, s, rank), TermOf(h, s, n));
  }

  /** Two fields have one hash exactly if their structure is one, down to the hashes of what they
      refer to. */
  lemma {:induction false} EqualFieldHashes(h: Hasher, s: SaneRecords, s': SaneRecords, rank: map<Target, nat>, rank': map<Target, nat>,
                                            r: string, f: Field, r': string, g: Field)
    requires Separates(h) && Ranked(h, s, rank) && Ranked(h, s', rank')
    requires r in s.named && f in s.named[r].fields && FieldFits(f)
    requires r' in s'.named && g in s'.named[r'].fields && FieldFits(g)
    ensures FieldOf(r, f.name) in rank && FieldOf(r', g.name) in rank'
    ensures Plain(h, s, rank, FieldOf(r, f.name)) == Plain(h, s', rank', FieldOf(r', g.name)) <==>
            SameField(View(Hashes(h, s, rank), r), View(Hashes(h, s', rank'), r'), s.defaultEndian, s'.defaultEndian, f, g)
  {
    FoundField(h, s, r, f);
    FoundField(h, s', r', g);
    PlainIs(h, s, rank, FieldOf(r, f.name));
    PlainIs(h, s', rank', FieldOf(r', g.name));
    FieldsAgree(h, View(Hashes(h, s, rank), r), View(Hashes(h, s', rank'), r'), s.defaultEndian, s'.defaultEndian, f, g);
  }

  lemma {:induction false} FoundField(h: Hasher, s: SaneRecords, r: string, f: Field)
    requires r in s.named && f in s.named[r].fields
    ensures GoodRanges(f) && Present(s, FieldOf(r, f.name)) && TermOf(h, s, FieldOf(r, f.name)) == FieldTerm(h, s.defaultEndian, r, f)
  {
    var i :| 0 <= i < |s.named[r].fields| && s.named[r].fields[i] == f;
    FindsEachField(s.named[r].fields, i);
  }

  /* Records */

  ghost function FieldHashes(h: Hasher, s: SaneRecords, rank: map<Target, nat>, r: string): seq<Word>
    requires Ranked(h, s, rank) && r in s.named
  {
    seq(|s.named[r].fields|, i requires 0 <= i < |s.named[r].fields| => Look(Hashes(h, s, rank), FieldOf(r, s.named[r].fields[i].name)))
  }

  /** What is mixed for a record. */
  function Input(kind: RecordKind, ws: seq<Word>): seq<Word> {
    match kind
    case Struct => [Word(0)] + ws
    case Union => [Word(1)] + Sort(Bits, ws)
  }

  lemma {:induction false} RecordHashIs(h: Hasher, s: SaneRecords, rank: map<Target, nat>, r: string)
    requires Ranked(h, s, rank) && r in s.named
    ensures RecordOf(r) in rank
    ensures var ws := FieldHashes(h, s, rank, r);
            Plain(h, s, rank, RecordOf(r)) == h.mix(Input(s.named[r].kind, ws))
  {
    var record, env, ws := s.named[r], Hashes(h, s, rank), FieldHashes(h, s, rank, r);
    assert Present(s, RecordOf(r));
    PlainIs(h, s, rank, RecordOf(r));
    var asks := FieldAsks(record);
    if record.kind.Struct? {
      var parts := [Lit(Word(0))] + asks;
      assert seq(|parts|, i requires 0 <= i < |parts| => Eval(h, env, parts[i])) == [Word(0)] + ws;
    } else {
      assert seq(|asks|, i requires 0 <= i < |asks| => Eval(h, env, asks[i])) == ws;
    }
  }

  lemma {:induction false} SortedAgree(ws: seq<Word>, ws': seq<Word>)
    ensures Sort(Bits, ws) == Sort(Bits, ws') <==> multiset(ws) == multiset(ws')
  {
    if multiset(ws) == multiset(ws') {
      OrderedIsUnique(Bits, Sort(Bits, ws), Sort(Bits, ws'));
    }
  }

  lemma {:induction false} PrefixedAgree(x: Word, xs: seq<Word>, y: Word, ys: seq<Word>)
    ensures [x] + xs == [y] + ys <==> x == y && xs == ys
  {
    assert ([x] + xs)[0] == x && ([x] + xs)[1..] == xs;
    assert ([y] + ys)[0] == y && ([y] + ys)[1..] == ys;
  }

  ghost predicate SameFields(kind: RecordKind, ws: seq<Word>, kind': RecordKind, ws': seq<Word>) {
    kind == kind' && if kind.Struct? then ws == ws' else multiset(ws) == multiset(ws')
  }

  lemma {:induction false} InputsAgree(h: Hasher, kind: RecordKind, ws: seq<Word>, kind': RecordKind, ws': seq<Word>)
    requires Separates(h)
    ensures h.mix(Input(kind, ws)) == h.mix(Input(kind', ws')) <==> SameFields(kind, ws, kind', ws')
  {
    PrefixedAgree(if kind.Struct? then Word(0) else Word(1), if kind.Struct? then ws else Sort(Bits, ws),
                  if kind'.Struct? then Word(0) else Word(1), if kind'.Struct? then ws' else Sort(Bits, ws'));
    SortedAgree(ws, ws');
  }

  /** Two structs have one hash exactly if their fields have the same hashes in order, two unions if
      they have the same ones in any order; a struct and a union never do. */
  lemma {:induction false} EqualRecordHashes(h: Hasher, s: SaneRecords, s': SaneRecords, rank: map<Target, nat>, rank': map<Target, nat>, r: string, r': string)
    requires Separates(h) && Ranked(h, s, rank) && Ranked(h, s', rank') && r in s.named && r' in s'.named
    ensures RecordOf(r) in rank && RecordOf(r') in rank'
    ensures Plain(h, s, rank, RecordOf(r)) == Plain(h, s', rank', RecordOf(r')) <==>
            SameFields(s.named[r].kind, FieldHashes(h, s, rank, r), s'.named[r'].kind, FieldHashes(h, s', rank', r'))
  {
    RecordHashIs(h, s, rank, r);
    RecordHashIs(h, s', rank', r');
    InputsAgree(h, s.named[r].kind, FieldHashes(h, s, rank, r), s'.named[r'].kind, FieldHashes(h, s', rank', r'));
  }

  /* Lists of `int` fields */

  ghost predicate IsNumber(v: FieldValue, a: int) {
    v == IntValue(Single(Val(a)))
  }

  ghost predicate IsRange(v: FieldValue, a: int, b: int) {
    v == IntValue(Range(Val(a), Val(b)))
  }

  /** A constant, or a constant range, that contains `x`. */
  ghost predicate Says(v: FieldValue, x: int) {
    IsNumber(v, x) || exists a, b :: IsRange(v, a, b) && a <= x <= b
  }

  ghost predicate SaysSome(vs: seq<FieldValue>, x: int) {
    exists v :: v in vs && Says(v, x)
  }

  /** Written as a constant or a constant range. */
  ghost predicate Written(v: FieldValue) {
    (exists a :: IsNumber(v, a)) || exists a, b :: IsRange(v, a, b)
  }

  lemma {:induction false} ConstantsAreWritten(v: FieldValue)
    ensures IsConstant(v) <==> Written(v)
    ensures IsConstant(v) ==> forall x :: Inside(x, ConstantRange(v)) <==> Says(v, x)
  {
    if IsConstant(v) {
      match v.num
      case Single(y) =>
        assert IsNumber(v, y.value);
      case Range(start, end) =>
        assert IsRange(v, start.value, end.value);
    }
  }

  lemma {:induction false} DenotesWhatIsWritten(vs: seq<FieldValue>, x: int)
    ensures Denotes(vs, x) <==> SaysSome(vs, x)
  {
    if Denotes(vs, x) {
      var i :| 0 <= i < |vs| && IsConstant(vs[i]) && Inside(x, ConstantRange(vs[i]));
      ConstantsAreWritten(vs[i]);
      assert vs[i] in vs;
    }
    if SaysSome(vs, x) {
      var v :| v in vs && Says(v, x);
      var i :| 0 <= i < |vs| && vs[i] == v;
      assert Written(v);
      ConstantsAreWritten(v);
    }
  }

  /** What stays open are the other values, each as often as it is there. */
  lemma {:induction false} OpenIsTheRest(vs: seq<FieldValue>, v: FieldValue)
    ensures multiset(Open(vs))[v] == if Written(v) then 0 else multiset(vs)[v]
  {
    ConstantsAreWritten(v);
    if vs != [] {
      var init, last := vs[..|vs| - 1], vs[|vs| - 1];
      OpenIsTheRest(init, v);
      assert vs == init + [last];
      assert multiset(vs) == multiset(init) + multiset{last};
      ConstantsAreWritten(last);
    }
  }

  lemma {:induction false} OpenAreNotWritten(vs: seq<FieldValue>)
    ensures forall i | 0 <= i < |Open(vs)| :: !IsConstant(Open(vs)[i])
  {
    if vs != [] { OpenAreNotWritten(vs[..|vs| - 1]); }
  }

  /** A value with constants only is like no value with a reference. */
  lemma {:induction false} ConstantsDiffer(p: View, q: View, v: FieldValue, w: FieldValue)
    requires SameValue(p, q, v, w)
    ensures IsConstant(v) <==> IsConstant(w)
  {
  }

  /** The lists of two `int` fields are hashed alike exactly if their values with references agree in
      order and their constants say the same integers. */
  lemma {:induction false} SameIntLists(p: View, q: View, vs: seq<FieldValue>, ws: seq<FieldValue>)
    requires Ascending(vs) && Ascending(ws)
    ensures SameList(p, q, Normalised(vs), Normalised(ws)) <==>
            SameList(p, q, Open(vs), Open(ws)) && forall x :: SaysSome(vs, x) <==> SaysSome(ws, x)
  {
    var rs, rs' := Ranges(vs), Ranges(ws);
    forall x
      ensures Covers(rs, x) <==> SaysSome(vs, x)
      ensures Covers(rs', x) <==> SaysSome(ws, x)
    {
      RangesDenote(vs, x);
      RangesDenote(ws, x);
      DenotesWhatIsWritten(vs, x);
      DenotesWhatIsWritten(ws, x);
    }
    OpenAreNotWritten(vs);
    OpenAreNotWritten(ws);
    if SameList(p, q, Normalised(vs), Normalised(ws)) {
      SplitsAlike(p, q, Open(vs), rs, Open(ws), rs');
    }
    if SameList(p, q, Open(vs), Open(ws)) && forall x :: SaysSome(vs, x) <==> SaysSome(ws, x) {
      CanonicalIsUnique(rs, rs');
      JoinsAlike(p, q, Open(vs), Open(ws), RangeValues(rs));
    }
  }

  lemma {:induction false} SplitsAlike(p: View, q: View, vs: seq<FieldValue>, rs: seq<Interval>, ws: seq<FieldValue>, rs': seq<Interval>)
    requires SameList(p, q, vs + RangeValues(rs), ws + RangeValues(rs'))
    requires forall i | 0 <= i < |vs| :: !IsConstant(vs[i])
    requires forall i | 0 <= i < |ws| :: !IsConstant(ws[i])
    ensures SameList(p, q, vs, ws) && rs == rs'
  {
    var all, all' := vs + RangeValues(rs), ws + RangeValues(rs');
    forall i | 0 <= i < |all|
      ensures IsConstant(all[i]) <==> i >= |vs|
      ensures IsConstant(all'[i]) <==> i >= |ws|
      ensures SameValue(p, q, all[i], all'[i]) && (IsConstant(all[i]) <==> IsConstant(all'[i]))
    {
      ConstantsDiffer(p, q, all[i], all'[i]);
    }
    assert |vs| < |all| ==> IsConstant(all[|vs|]) && IsConstant(all'[|vs|]);
    assert |ws| < |all| ==> IsConstant(all'[|ws|]) && IsConstant(all[|ws|]);
    assert |vs| == |ws|;
    forall i | 0 <= i < |vs|
      ensures SameValue(p, q, vs[i], ws[i])
    {
      assert all[i] == vs[i] && all'[i] == ws[i];
    }
    forall i | 0 <= i < |rs|
      ensures rs[i] == rs'[i]
    {
      assert all[|vs| + i] == RangeValue(rs[i]) && all'[|ws| + i] == RangeValue(rs'[i]);
    }
  }

  lemma {:induction false} JoinsAlike(p: View, q: View, vs: seq<FieldValue>, ws: seq<FieldValue>, rest: seq<FieldValue>)
    requires SameList(p, q, vs, ws) && forall i | 0 <= i < |rest| :: SameValue(p, q, rest[i], rest[i])
    ensures SameList(p, q, vs + rest, ws + rest)
  {
  }
}
