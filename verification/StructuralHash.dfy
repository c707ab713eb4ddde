/** The structural hash of a schema, as plain recursion without a memo (testlang/src/hash.rs). */
module StructuralHash {
  import opened Options
  import opened Schema
  import opened Intervals
  import opened Sorting

  /** What a hash is taken of: a record, or one field of one record. */
  datatype Target = RecordOf(record: string) | FieldOf(record: string, field: string)

  /** The hash function, of which nothing is assumed. */
  datatype Hasher = Hasher(mix: seq<Word> -> Word, bytes: seq<int> -> Word, text: seq<int> -> Word)

  /** What the hasher keeps of a schema. */
  datatype Records = Records(defaultEndian: Endianness, named: map<string, Record>)

  /** How a hash is put together: from a known word, from the hash of another record or field,
      or by mixing parts, in their order or sorted behind a leading word. */
  datatype Term = Lit(word: Word) | Ask(target: Target) | Mix(parts: seq<Term>) | Sorted(first: Word, parts: seq<Term>)

  /* Evaluating terms */

  function Look(env: map<Target, Word>, a: Target): Word {
    if a in env then env[a] else Word(0)
  }

  function Eval(h: Hasher, env: map<Target, Word>, t: Term): Word {
    match t
    case Lit(w) => w
    case Ask(a) => Look(env, a)
    case Mix(parts) => h.mix(seq(|parts|, i requires 0 <= i < |parts| => Eval(h, env, parts[i])))
    case Sorted(first, parts) =>
      h.mix([first] + Sort(Bits, seq(|parts|, i requires 0 <= i < |parts| => Eval(h, env, parts[i]))))
  }

  function Evals(h: Hasher, env: map<Target, Word>, parts: seq<Term>): seq<Word> {
    seq(|parts|, i requires 0 <= i < |parts| => Eval(h, env, parts[i]))
  }

  /** The term needs the hash of `a`. */
  ghost predicate Asks(t: Term, a: Target) {
    match t
    case Lit(_) => false
    case Ask(b) => a == b
    case Mix(parts) => exists i | 0 <= i < |parts| :: Asks(parts[i], a)
    case Sorted(_, parts) => exists i | 0 <= i < |parts| :: Asks(parts[i], a)
  }

  /** Only the hashes a term asks for matter to its value. */
  lemma {:induction false} EvalAgrees(h: Hasher, e: map<Target, Word>, f: map<Target, Word>, t: Term)
    requires forall a | Asks(t, a) :: Look(e, a) == Look(f, a)
    ensures Eval(h, e, t) == Eval(h, f, t)
    decreases t, 1
  {
    match t
    case Lit(_) =>
    case Ask(a) => assert Asks(t, a);
    case Mix(parts) =>
      EvalsAgree(h, e, f, t, parts);
    case Sorted(_, parts) =>
      EvalsAgree(h, e, f, t, parts);
  }

  lemma {:induction false} EvalsAgree(h: Hasher, e: map<Target, Word>, f: map<Target, Word>, t: Term, parts: seq<Term>)
    requires (t.Mix? && t.parts == parts) || (t.Sorted? && t.parts == parts)
    requires forall a | Asks(t, a) :: Look(e, a) == Look(f, a)
    ensures Evals(h, e, parts) == Evals(h, f, parts)
    decreases t, 0
  {
    forall i | 0 <= i < |parts|
      ensures Eval(h, e, parts[i]) == Eval(h, f, parts[i])
    {
      forall a | Asks(parts[i], a)
        ensures Look(e, a) == Look(f, a)
      {
        assert Asks(t, a);
      }
      EvalAgrees(h, e, f, parts[i]);
    }
  }

  /** The order words are sorted in. */
  function Bits(w: Word): int { w.bits }

  /* The terms of a schema */

  function KindCode(kind: FieldKind): Word {
    match kind
    case Int => Word(0)
    case Bytes => Word(0)
    case String => Word(0)
    case Custom(_) => Word(0)
    case Float => Word(1)
    case Array => Word(2)
    case Record => Word(3)
  }

  function FormatCode(f: StringFormat): Word {
    match f
    case BinInt => Word(1)
    case DecInt => Word(2)
    case HexInt => Word(3)
    case OctInt => Word(4)
  }

  function EndianCode(e: Endianness): Word {
    if e.Little? then Word(0) else Word(1)
  }

  function TargetOf(context: string, ref: Ref): Target {
    if ref.kind.ToField? then FieldOf(context, ref.name) else RecordOf(ref.name)
  }

  function RefTerm(context: string, ref: Ref): Term {
    Mix([Lit(if ref.kind.ToField? then Word(0) else Word(1)), Ask(TargetOf(context, ref))])
  }

  function ValOrRefTerm<T>(context: string, v: ValOrRef<T>, word: T -> Word): Term {
    match v
    case Val(x) => Mix([Lit(Word(0)), Lit(word(x))])
    case Reference(ref) => Mix([Lit(Word(1)), RefTerm(context, ref)])
  }

  function NumTerm<T>(context: string, num: NumValue<T>, word: T -> Word): Term {
    match num
    case Single(v) => Mix([Lit(Word(0)), ValOrRefTerm(context, v, word)])
    case Range(start, end) =>
      Mix([Lit(Word(1)), Mix([ValOrRefTerm(context, start, word), ValOrRefTerm(context, end, word)])])
  }

  function SizeTerm(context: string, size: Option<SizeDescriptor>): Term {
    if size.None? then Lit(Word(0)) else NumTerm(context, size.value, AsWord)
  }

  function FloatBits(f: Float): Word { f.bits }

  function ValueTerm(h: Hasher, context: string, v: FieldValue): Term {
    match v
    case IntValue(num) => Mix([Lit(Word(0)), NumTerm(context, num, AsWord)])
    case FloatValue(num) => Mix([Lit(Word(1)), NumTerm(context, num, FloatBits)])
    case StringValue(text) => Mix([Lit(Word(2)), ValOrRefTerm(context, text, h.text)])
    case BytesValue(bytes) => Mix([Lit(Word(3)), ValOrRefTerm(context, bytes, h.bytes)])
  }

  /** A constant integer or constant range among the possible values. */
  predicate IsConstant(v: FieldValue) {
    v.IntValue? && match v.num
                   case Single(x) => x.Val?
                   case Range(start, end) => start.Val? && end.Val?
  }

  function ConstantRange(v: FieldValue): Interval
    requires IsConstant(v)
  {
    match v.num
    case Single(x) => Interval(x.value, x.value)
    case Range(start, end) => Interval(start.value, end.value)
  }

  predicate AllIntegers(vs: seq<FieldValue>) {
    forall i | 0 <= i < |vs| :: vs[i].IntValue?
  }

  /** The range set panics on a range that runs downwards; the validator refuses those. */
  predicate Ascending(vs: seq<FieldValue>) {
    forall i | 0 <= i < |vs| && IsConstant(vs[i]) :: ConstantRange(vs[i]).lo <= ConstantRange(vs[i]).hi
  }

  /** The values that are not constant, in order. */
  function Open(vs: seq<FieldValue>): seq<FieldValue> {
    if vs == [] then []
    else if IsConstant(vs[|vs| - 1]) then Open(vs[..|vs| - 1])
    else Open(vs[..|vs| - 1]) + [vs[|vs| - 1]]
  }

  ghost predicate Denotes(vs: seq<FieldValue>, x: int) {
    exists i | 0 <= i < |vs| && IsConstant(vs[i]) :: Inside(x, ConstantRange(vs[i]))
  }

  /** The constants as a range set. */
  function Ranges(vs: seq<FieldValue>): (rs: seq<Interval>)
    requires Ascending(vs)
    ensures Canonical(rs)
  {
    if vs == [] then []
    else
      var last := vs[|vs| - 1];
      var before := Ranges(vs[..|vs| - 1]);
      if IsConstant(last) then Insert(before, ConstantRange(last)) else before
  }

  lemma {:induction false} RangesDenote(vs: seq<FieldValue>, x: int)
    requires Ascending(vs)
    ensures Covers(Ranges(vs), x) <==> Denotes(vs, x)
  {
    if vs != [] {
      var init, last := vs[..|vs| - 1], vs[|vs| - 1];
      RangesDenote(init, x);
      assert vs == init + [last];
      if Denotes(init, x) {
        var i :| 0 <= i < |init| && IsConstant(init[i]) && Inside(x, ConstantRange(init[i]));
        assert vs[i] == init[i];
      }
      if IsConstant(last) && Inside(x, ConstantRange(last)) {
        assert Inside(x, ConstantRange(vs[|vs| - 1]));
      }
      if Denotes(vs, x) {
        var i :| 0 <= i < |vs| && IsConstant(vs[i]) && Inside(x, ConstantRange(vs[i]));
        if i < |init| { assert init[i] == vs[i]; }
      }
    }
  }

  function RangeValue(r: Interval): FieldValue {
    IntValue(Range(Val(r.lo), Val(r.hi)))
  }

  function RangeValues(rs: seq<Interval>): seq<FieldValue> {
    seq(|rs|, i requires 0 <= i < |rs| => RangeValue(rs[i]))
  }

  /** What stands in for the possible values of an `int` field. */
  function Normalised(vs: seq<FieldValue>): seq<FieldValue>
    requires Ascending(vs)
  {
    Open(vs) + RangeValues(Ranges(vs))
  }

  function Values(kind: FieldKind, vs: seq<FieldValue>): seq<FieldValue>
    requires kind.Int? ==> Ascending(vs)
  {
    if kind.Int? then Normalised(vs) else vs
  }

  function ValueTerms(h: Hasher, context: string, vs: seq<FieldValue>): seq<Term> {
    seq(|vs|, i requires 0 <= i < |vs| => ValueTerm(h, context, vs[i]))
  }

  function ValuesTerm(h: Hasher, context: string, f: Field): Term
    requires GoodRanges(f)
  {
    if f.possibleValues.None? then Lit(Word(0))
    else Mix(ValueTerms(h, context, Values(f.kind, f.possibleValues.value)))
  }

  function ItemsTerm(context: string, items: Option<Ref>): Term {
    if items.None? then Lit(Word(0)) else RefTerm(context, items.value)
  }

  function TerminatorWord(h: Hasher, t: Option<Terminator>): Word {
    match t
    case None => Word(0)
    case Some(ByteSequence(s)) => h.bytes(s)
    case Some(CharSequence(s)) => h.bytes(s)
  }

  function MethodWord(h: Hasher, m: FdpMethod): Word {
    match m
    case Llvm(i) => h.mix([Word(0), Word(i)])
    case Jazzer(i) => h.mix([Word(1), Word(i)])
  }

  function ArgTerm(context: string, arg: FdpArg): Term {
    match arg
    case IntArg(n) => Mix([Lit(Word(0)), Lit(n)])
    case FloatArg(f) => Mix([Lit(Word(1)), Lit(f.asInteger)])
    case RefArg(ref) => Mix([Lit(Word(2)), RefTerm(context, ref)])
  }

  function ArgTerms(context: string, args: seq<FdpArg>): seq<Term> {
    seq(|args|, i requires 0 <= i < |args| => ArgTerm(context, args[i]))
  }

  function SizeWord(size: Option<nat>): Word {
    if size.None? then Word(0) else Word(size.value)
  }

  function CallTerm(h: Hasher, context: string, call: Option<FdpCall>): Term {
    if call.None? then Lit(Word(0))
    else Mix([Lit(MethodWord(h, call.value.api)), Lit(SizeWord(call.value.typeSize)), Mix(ArgTerms(context, call.value.args))])
  }

  predicate GoodRanges(f: Field) {
    f.kind.Int? && f.possibleValues.Some? ==> Ascending(f.possibleValues.value)
  }

  predicate GoodInts(f: Field) {
    f.kind.Int? && f.possibleValues.Some? ==> AllIntegers(f.possibleValues.value)
  }

  function FormatWord(f: Option<StringFormat>): Word {
    if f.None? then Word(0) else FormatCode(f.value)
  }

  function EndianWord(default: Endianness, e: Option<Endianness>): Word {
    EndianCode(if e.None? then default else e.value)
  }

  function FieldParts(h: Hasher, endian: Endianness, context: string, f: Field): seq<Term>
    requires GoodRanges(f)
  {
    [Lit(KindCode(f.kind)),
     SizeTerm(context, f.len),
     SizeTerm(context, f.byteSize),
     ValuesTerm(h, context, f),
     ItemsTerm(context, f.items),
     Lit(TerminatorWord(h, f.terminator)),
     Lit(FormatWord(f.stringFormat)),
     Lit(EndianWord(endian, f.endianness)),
     CallTerm(h, context, f.fdpCall)]
  }

  function FieldTerm(h: Hasher, endian: Endianness, context: string, f: Field): Term
    requires GoodRanges(f)
  {
    Mix(FieldParts(h, endian, context, f))
  }

  function FieldAsks(r: Record): seq<Term> {
    seq(|r.fields|, i requires 0 <= i < |r.fields| => Ask(FieldOf(r.name, r.fields[i].name)))
  }

  function RecordTerm(r: Record): Term {
    if r.kind.Union? then Sorted(Word(1), FieldAsks(r))
    else Mix([Lit(Word(0))] + FieldAsks(r))
  }

  /* Graphs of references */

  /** Fields of one record have distinct names, and no constant range runs downwards. */
  ghost predicate Sane(s: Records) {
    forall n {:trigger s.named[n]} | n in s.named ::
      s.named[n].name == n && DistinctFields(s.named[n].fields) && forall f | f in s.named[n].fields :: GoodRanges(f)
  }

  type SaneRecords = s: Records | Sane(s) witness Records(Little, map[])

  predicate Present(s: SaneRecords, n: Target) {
    && n.record in s.named
    && (n.FieldOf? ==> FindField(s.named[n.record].fields, n.field).Some?)
  }

  ghost function Nodes(s: SaneRecords): set<Target> {
    (set r | r in s.named :: RecordOf(r)) +
    (set r, i | r in s.named && 0 <= i < |s.named[r].fields| :: FieldOf(r, s.named[r].fields[i].name))
  }

  lemma {:induction false} NodesArePresent(s: SaneRecords, n: Target)
    ensures n in Nodes(s) <==> Present(s, n)
  {
    if Present(s, n) && n.FieldOf? {
      var f := FindField(s.named[n.record].fields, n.field).value;
      var i :| 0 <= i < |s.named[n.record].fields| && s.named[n.record].fields[i] == f;
    }
  }

  function TermOf(h: Hasher, s: SaneRecords, n: Target): Term
  {
    if !Present(s, n) then Lit(Word(0))
    else match n
         case RecordOf(r) => RecordTerm(s.named[r])
         case FieldOf(r, f) => FieldTerm(h, s.defaultEndian, r, FindField(s.named[r].fields, f).value)
  }

  /** Hashing `n` needs the hash of `a`. */
  ghost predicate Edge(h: Hasher, s: SaneRecords, n: Target, a: Target)
  {
    Asks(TermOf(h, s, n), a)
  }

  ghost predicate Chain(h: Hasher, s: SaneRecords, p: seq<Target>)
  {
    forall i | 0 <= i < |p| - 1 :: Edge(h, s, p[i], p[i + 1])
  }

  ghost predicate Cyclic(h: Hasher, s: SaneRecords)
  {
    exists p: seq<Target> :: |p| > 1 && p[0] == p[|p| - 1] && Chain(h, s, p)
  }

  ghost predicate Resolves(h: Hasher, s: SaneRecords)
  {
    forall n, a | Present(s, n) && Edge(h, s, n, a) :: Present(s, a)
  }

  /** `int` fields list only integer values. */
  ghost predicate IntsHoldInts(s: SaneRecords) {
    forall n, f | n in s.named && f in s.named[n].fields :: GoodInts(f)
  }

  /** An order in which everything comes after what it refers to. */
  ghost predicate Ranked(h: Hasher, s: SaneRecords, rank: map<Target, nat>)
  {
    && (forall n :: n in rank <==> Present(s, n))
    && forall n, a | n in rank && Edge(h, s, n, a) :: a in rank && rank[a] < rank[n]
  }

  /** The hash by plain recursion: first what is referred to, each time anew, then the mix. */
  ghost function Plain(h: Hasher, s: SaneRecords, rank: map<Target, nat>, n: Target): Word
    requires n in rank
    decreases rank[n]
  {
    Eval(h, map a | a in rank && rank[a] < rank[n] :: Plain(h, s, rank, a), TermOf(h, s, n))
  }

  /** Words that agree with the plain hash wherever they agree with each other. */
  ghost predicate Settled(h: Hasher, s: SaneRecords, words: map<Target, Word>)
  {
    forall n {:trigger words[n]} | n in words ::
      words[n] == Eval(h, words, TermOf(h, s, n)) && forall a | Edge(h, s, n, a) :: a in words
  }

  lemma {:induction false} SettledIsPlain(h: Hasher, s: SaneRecords, words: map<Target, Word>, rank: map<Target, nat>, n: Target)
    requires Settled(h, s, words) && Ranked(h, s, rank) && n in words && n in rank
    ensures words[n] == Plain(h, s, rank, n)
    decreases rank[n]
  {
    var env := map a | a in rank && rank[a] < rank[n] :: Plain(h, s, rank, a);
    forall a | Asks(TermOf(h, s, n), a)
      ensures Look(env, a) == Look(words, a)
    {
      assert Edge(h, s, n, a);
      SettledIsPlain(h, s, words, rank, a);
    }
    EvalAgrees(h, env, words, TermOf(h, s, n));
  }

  /** An order leaves no room for a cycle. */
  lemma {:induction false} RankedIsAcyclic(h: Hasher, s: SaneRecords, rank: map<Target, nat>)
    requires Ranked(h, s, rank)
    ensures !Cyclic(h, s)
  {
    forall p: seq<Target> | |p| > 1 && Chain(h, s, p)
      ensures p[0] != p[|p| - 1]
    {
      assert Edge(h, s, p[0], p[1]);
      EdgesFromPresent(h, s, p[0], p[1]);
      RankFalls(h, s, rank, p);
    }
  }

  lemma {:induction false} EdgesFromPresent(h: Hasher, s: SaneRecords, n: Target, a: Target)
    ensures Edge(h, s, n, a) ==> Present(s, n)
  {
  }

  lemma {:induction false} RankFalls(h: Hasher, s: SaneRecords, rank: map<Target, nat>, p: seq<Target>)
    requires Ranked(h, s, rank) && |p| > 1 && Chain(h, s, p) && p[0] in rank
    ensures p[|p| - 1] in rank && rank[p[|p| - 1]] < rank[p[0]]
  {
    assert Edge(h, s, p[0], p[1]);
    if |p| > 2 {
      forall i | 0 <= i < |p[1..]| - 1
        ensures Edge(h, s, p[1..][i], p[1..][i + 1])
      {
        assert Edge(h, s, p[i + 1], p[i + 2]);
      }
      RankFalls(h, s, rank, p[1..]);
    }
  }

  lemma {:induction false} RankedResolves(h: Hasher, s: SaneRecords, rank: map<Target, nat>)
    requires Ranked(h, s, rank)
    ensures Resolves(h, s)
  {
  }
}
