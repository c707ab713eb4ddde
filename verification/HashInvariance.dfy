/** The structural hash does not see names, the order of union fields, or how the constant
    values of an `int` field are written down. */
module HashInvariance {
  import opened Options
  import opened Schema
  import opened Intervals
  import opened Sorting
  import opened StructuralHash

  /** New names: for records, and within each record for its fields. */
  datatype Renaming = Renaming(record: string -> string, field: (string, string) -> string)

  function Move(ren: Renaming, n: Target): Target {
    match n
    case RecordOf(r) => RecordOf(ren.record(r))
    case FieldOf(r, f) => FieldOf(ren.record(r), ren.field(r, f))
  }

  function MoveTerm(ren: Renaming, t: Term): Term {
    match t
    case Lit(w) => Lit(w)
    case Ask(a) => Ask(Move(ren, a))
    case Mix(parts) => Mix(seq(|parts|, i requires 0 <= i < |parts| => MoveTerm(ren, parts[i])))
    case Sorted(first, parts) => Sorted(first, seq(|parts|, i requires 0 <= i < |parts| => MoveTerm(ren, parts[i])))
  }

  /* The general argument */

  /** The terms have one value and need the same hashes. */
  ghost predicate Alike(h: Hasher, t: Term, u: Term) {
    && (forall env: map<Target, Word> :: Eval(h, env, t) == Eval(h, env, u))
    && forall a :: Asks(t, a) <==> Asks(u, a)
  }

  /** `s'` has everything `s` has, under the new names and with terms that are alike. */
  ghost predicate Simulates(h: Hasher, s: SaneRecords, s': SaneRecords, ren: Renaming) {
    forall n {:trigger Move(ren, n)} | Present(s, n) ::
      Present(s', Move(ren, n)) && Alike(h, MoveTerm(ren, TermOf(h, s, n)), TermOf(h, s', Move(ren, n)))
  }

  lemma {:induction false} MovedAsks(ren: Renaming, t: Term, a: Target)
    requires Asks(t, a)
    ensures Asks(MoveTerm(ren, t), Move(ren, a))
  {
    match t
    case Lit(_) =>
    case Ask(_) =>
    case Mix(parts) =>
      var i :| 0 <= i < |parts| && Asks(parts[i], a);
      MovedAsks(ren, parts[i], a);
      assert MoveTerm(ren, t).parts[i] == MoveTerm(ren, parts[i]);
    case Sorted(_, parts) =>
      var i :| 0 <= i < |parts| && Asks(parts[i], a);
      MovedAsks(ren, parts[i], a);
      assert MoveTerm(ren, t).parts[i] == MoveTerm(ren, parts[i]);
  }

  lemma {:induction false} MovedEval(h: Hasher, ren: Renaming, e: map<Target, Word>, e': map<Target, Word>, t: Term)
    requires forall a | Asks(t, a) :: Look(e', Move(ren, a)) == Look(e, a)
    ensures Eval(h, e', MoveTerm(ren, t)) == Eval(h, e, t)
    decreases t, 1
  {
    match t
    case Lit(_) =>
    case Ask(a) => assert Asks(t, a);
    case Mix(parts) => MovedEvals(h, ren, e, e', t, parts);
    case Sorted(_, parts) => MovedEvals(h, ren, e, e', t, parts);
  }

  lemma {:induction false} MovedEvals(h: Hasher, ren: Renaming, e: map<Target, Word>, e': map<Target, Word>, t: Term, parts: seq<Term>)
    requires (t.Mix? && t.parts == parts) || (t.Sorted? && t.parts == parts)
    requires forall a | Asks(t, a) :: Look(e', Move(ren, a)) == Look(e, a)
    ensures Evals(h, e', MoveTerm(ren, t).parts) == Evals(h, e, parts)
    decreases t, 0
  {
    forall i | 0 <= i < |parts|
      ensures Eval(h, e', MoveTerm(ren, parts[i])) == Eval(h, e, parts[i])
    {
      assert forall a | Asks(parts[i], a) :: Asks(t, a);
      MovedEval(h, ren, e, e', parts[i]);
    }
  }

  /** Simulation keeps every hash. */
  lemma {:induction false} SimulationKeepsHash(h: Hasher, s: SaneRecords, s': SaneRecords, ren: Renaming, rank: map<Target, nat>, rank': map<Target, nat>, n: Target)
    requires Simulates(h, s, s', ren) && Ranked(h, s, rank) && Ranked(h, s', rank') && n in rank
    ensures Move(ren, n) in rank' && Plain(h, s', rank', Move(ren, n)) == Plain(h, s, rank, n)
    decreases rank[n]
  {
    var n' := Move(ren, n);
    assert Present(s', n');
    var t, t' := TermOf(h, s, n), TermOf(h, s', n');
    var env := map a | a in rank && rank[a] < rank[n] :: Plain(h, s, rank, a);
    var env' := map a | a in rank' && rank'[a] < rank'[n'] :: Plain(h, s', rank', a);
    forall a | Asks(t, a)
      ensures Look(env', Move(ren, a)) == Look(env, a)
    {
      assert Edge(h, s, n, a);
      MovedAsks(ren, t, a);
      assert Edge(h, s', n', Move(ren, a));
      SimulationKeepsHash(h, s, s', ren, rank, rank', a);
    }
    MovedEval(h, ren, env, env', t);
    assert Eval(h, env', MoveTerm(ren, t)) == Eval(h, env', t');
  }

  /** Hashing succeeds: see `HashMemo.TestLangHasher.Hash`. */
  ghost predicate Sound(h: Hasher, s: SaneRecords) {
    (exists rank :: Ranked(h, s, rank)) && IntsHoldInts(s)
  }

  ghost predicate SameHashes(h: Hasher, s: SaneRecords, s': SaneRecords, ren: Renaming) {
    forall rank, rank', n | Ranked(h, s, rank) && Ranked(h, s', rank') && n in rank ::
      Move(ren, n) in rank' && Plain(h, s', rank', Move(ren, n)) == Plain(h, s, rank, n)
  }

  lemma {:induction false} SimulationKeepsHashes(h: Hasher, s: SaneRecords, s': SaneRecords, ren: Renaming)
    requires Simulates(h, s, s', ren)
    ensures SameHashes(h, s, s', ren)
  {
    forall rank, rank', n | Ranked(h, s, rank) && Ranked(h, s', rank') && n in rank
      ensures Move(ren, n) in rank' && Plain(h, s', rank', Move(ren, n)) == Plain(h, s, rank, n)
    {
      SimulationKeepsHash(h, s, s', ren, rank, rank', n);
    }
  }

  /** An order on one side gives one on the other, if names can be moved back. */
  lemma {:induction false} SimulationKeepsOrder(h: Hasher, s: SaneRecords, s': SaneRecords, ren: Renaming, back: Renaming, rank': map<Target, nat>)
    requires Simulates(h, s, s', ren) && Simulates(h, s', s, back) && Ranked(h, s', rank')
    requires forall n {:trigger Move(ren, n)} :: Move(back, Move(ren, n)) == n
    ensures exists rank :: Ranked(h, s, rank)
  {
    var rank: map<Target, nat> := map n | n in Nodes(s) :: if Move(ren, n) in rank' then rank'[Move(ren, n)] else 0;
    forall n
      ensures n in rank <==> Present(s, n)
    {
      NodesArePresent(s, n);
    }
    forall n, a | n in rank && Edge(h, s, n, a)
      ensures a in rank && rank[a] < rank[n]
    {
      MovedAsks(ren, TermOf(h, s, n), a);
      assert Present(s', Move(ren, n));
      assert Edge(h, s', Move(ren, n), Move(ren, a));
      assert Present(s, Move(back, Move(ren, a)));
    }
    assert Ranked(h, s, rank);
  }

  /* Renaming */

  function MoveRef(ren: Renaming, context: string, ref: Ref): Ref {
    if ref.kind.ToField? then ref.(name := ren.field(context, ref.name)) else ref.(name := ren.record(ref.name))
  }

  function MoveVal<T>(ren: Renaming, context: string, v: ValOrRef<T>): ValOrRef<T> {
    if v.Val? then v else Reference(MoveRef(ren, context, v.ref))
  }

  function MoveNum<T>(ren: Renaming, context: string, num: NumValue<T>): NumValue<T> {
    match num
    case Single(v) => Single(MoveVal(ren, context, v))
    case Range(start, end) => Range(MoveVal(ren, context, start), MoveVal(ren, context, end))
  }

  function MoveSize(ren: Renaming, context: string, size: Option<SizeDescriptor>): Option<SizeDescriptor> {
    if size.None? then None else Some(MoveNum(ren, context, size.value))
  }

  function MoveValue(ren: Renaming, context: string, v: FieldValue): FieldValue {
    match v
    case IntValue(num) => IntValue(MoveNum(ren, context, num))
    case FloatValue(num) => FloatValue(MoveNum(ren, context, num))
    case StringValue(text) => StringValue(MoveVal(ren, context, text))
    case BytesValue(bytes) => BytesValue(MoveVal(ren, context, bytes))
  }

  function MoveValues(ren: Renaming, context: string, vs: seq<FieldValue>): seq<FieldValue> {
    seq(|vs|, i requires 0 <= i < |vs| => MoveValue(ren, context, vs[i]))
  }

  function MoveArg(ren: Renaming, context: string, arg: FdpArg): FdpArg {
    if arg.RefArg? then RefArg(MoveRef(ren, context, arg.ref)) else arg
  }

  function MoveCall(ren: Renaming, context: string, call: Option<FdpCall>): Option<FdpCall> {
    if call.None? then None
    else
      var args := call.value.args;
      Some(call.value.(args := seq(|args|, i requires 0 <= i < |args| => MoveArg(ren, context, args[i]))))
  }

  /** A field under new names: its own, and those it refers to. */
  function MoveField(ren: Renaming, context: string, f: Field): Field {
    f.(name := ren.field(context, f.name),
       len := MoveSize(ren, context, f.len),
       byteSize := MoveSize(ren, context, f.byteSize),
       possibleValues := if f.possibleValues.None? then None else Some(MoveValues(ren, context, f.possibleValues.value)),
       items := if f.items.None? then None else Some(MoveRef(ren, context, f.items.value)),
       fdpCall := MoveCall(ren, context, f.fdpCall))
  }

  function MoveFields(ren: Renaming, r: Record): seq<Field> {
    seq(|r.fields|, i requires 0 <= i < |r.fields| => MoveField(ren, r.name, r.fields[i]))
  }

  function MoveRecord(ren: Renaming, r: Record): Record {
    Record.Record(ren.record(r.name), r.kind, MoveSize(ren, r.name, r.byteSize), MoveFields(ren, r))
  }

  ghost predicate Renamed(s: SaneRecords, s': SaneRecords, ren: Renaming) {
    && s'.defaultEndian == s.defaultEndian
    && forall r {:trigger s.named[r]} | r in s.named ::
         ren.record(r) in s'.named && s'.named[ren.record(r)] == MoveRecord(ren, s.named[r])
  }

  lemma {:induction false} MovedPair(ren: Renaming, t: Term, u: Term)
    ensures MoveTerm(ren, Mix([t, u])) == Mix([MoveTerm(ren, t), MoveTerm(ren, u)])
  {
  }

  lemma {:induction false} MovedRefTerm(ren: Renaming, context: string, ref: Ref)
    ensures RefTerm(ren.record(context), MoveRef(ren, context, ref)) == MoveTerm(ren, RefTerm(context, ref))
  {
  }

  lemma {:induction false} MovedValTerm<T>(ren: Renaming, context: string, v: ValOrRef<T>, word: T -> Word)
    ensures ValOrRefTerm(ren.record(context), MoveVal(ren, context, v), word) == MoveTerm(ren, ValOrRefTerm(context, v, word))
  {
    if v.Reference? { MovedRefTerm(ren, context, v.ref); }
  }

  lemma {:induction false} MovedNumTerm<T>(ren: Renaming, context: string, num: NumValue<T>, word: T -> Word)
    ensures NumTerm(ren.record(context), MoveNum(ren, context, num), word) == MoveTerm(ren, NumTerm(context, num, word))
  {
    match num
    case Single(v) =>
      MovedValTerm(ren, context, v, word);
    case Range(start, end) =>
      MovedValTerm(ren, context, start, word);
      MovedValTerm(ren, context, end, word);
      var t, u := ValOrRefTerm(context, start, word), ValOrRefTerm(context, end, word);
      MovedPair(ren, t, u);
      MovedPair(ren, Lit(Word(1)), Mix([t, u]));
  }

  lemma {:induction false} MovedValueTerm(h: Hasher, ren: Renaming, context: string, v: FieldValue)
    ensures ValueTerm(h, ren.record(context), MoveValue(ren, context, v)) == MoveTerm(ren, ValueTerm(h, context, v))
  {
    match v
    case IntValue(num) => MovedNumTerm(ren, context, num, AsWord);
    case FloatValue(num) => MovedNumTerm(ren, context, num, FloatBits);
    case StringValue(text) => MovedValTerm(ren, context, text, h.text);
    case BytesValue(bytes) => MovedValTerm(ren, context, bytes, h.bytes);
  }

  lemma {:induction false} MovedConstant(ren: Renaming, context: string, v: FieldValue)
    ensures IsConstant(MoveValue(ren, context, v)) <==> IsConstant(v)
    ensures IsConstant(v) ==> MoveValue(ren, context, v) == v
  {
  }

  lemma {:induction false} MovedAscending(ren: Renaming, context: string, vs: seq<FieldValue>)
    requires Ascending(vs)
    ensures Ascending(MoveValues(ren, context, vs))
  {
    var moved := MoveValues(ren, context, vs);
    forall i | 0 <= i < |moved| && IsConstant(moved[i])
      ensures ConstantRange(moved[i]).lo <= ConstantRange(moved[i]).hi
    {
      MovedConstant(ren, context, vs[i]);
    }
  }

  lemma {:induction false} MovedOpen(ren: Renaming, context: string, vs: seq<FieldValue>)
    requires Ascending(vs)
    ensures Ascending(MoveValues(ren, context, vs))
    ensures Open(MoveValues(ren, context, vs)) == MoveValues(ren, context, Open(vs))
    ensures Ranges(MoveValues(ren, context, vs)) == Ranges(vs)
  {
    MovedAscending(ren, context, vs);
    if vs != [] {
      var init, last := vs[..|vs| - 1], vs[|vs| - 1];
      MovedOpen(ren, context, init);
      MovedConstant(ren, context, last);
      var moved := MoveValues(ren, context, vs);
      assert moved[..|moved| - 1] == MoveValues(ren, context, init) && moved[|moved| - 1] == MoveValue(ren, context, last);
      if !IsConstant(last) {
        assert MoveValues(ren, context, Open(init) + [last]) == MoveValues(ren, context, Open(init)) + [MoveValue(ren, context, last)];
      }
    }
  }

  lemma {:induction false} MovedNormalised(ren: Renaming, context: string, vs: seq<FieldValue>)
    requires Ascending(vs)
    ensures Ascending(MoveValues(ren, context, vs))
    ensures Normalised(MoveValues(ren, context, vs)) == MoveValues(ren, context, Normalised(vs))
  {
    MovedOpen(ren, context, vs);
    var open, ranges := Open(vs), RangeValues(Ranges(vs));
    assert MoveValues(ren, context, ranges) == ranges;
    assert MoveValues(ren, context, open + ranges) == MoveValues(ren, context, open) + MoveValues(ren, context, ranges);
  }

  lemma {:induction false} MovedValuesTerm(h: Hasher, ren: Renaming, context: string, f: Field)
    requires GoodRanges(f)
    ensures GoodRanges(MoveField(ren, context, f)) && (GoodInts(MoveField(ren, context, f)) <==> GoodInts(f))
    ensures ValuesTerm(h, ren.record(context), MoveField(ren, context, f)) == MoveTerm(ren, ValuesTerm(h, context, f))
  {
    if f.possibleValues.Some? {
      var vs := f.possibleValues.value;
      var moved := MoveValues(ren, context, vs);
      assert AllIntegers(moved) <==> AllIntegers(vs) by {
        assert forall i | 0 <= i < |vs| :: moved[i].IntValue? <==> vs[i].IntValue?;
      }
      if f.kind.Int? { MovedNormalised(ren, context, vs); }
      var us := Values(f.kind, vs);
      forall i | 0 <= i < |us|
        ensures ValueTerm(h, ren.record(context), MoveValue(ren, context, us[i])) == MoveTerm(ren, ValueTerm(h, context, us[i]))
      {
        MovedValueTerm(h, ren, context, us[i]);
      }
      assert ValueTerms(h, ren.record(context), MoveValues(ren, context, us)) ==
             MoveTerm(ren, Mix(ValueTerms(h, context, us))).parts;
    }
  }

  lemma {:induction false} MovedCallTerm(h: Hasher, ren: Renaming, context: string, call: Option<FdpCall>)
    ensures CallTerm(h, ren.record(context), MoveCall(ren, context, call)) == MoveTerm(ren, CallTerm(h, context, call))
  {
    if call.Some? {
      var args := call.value.args;
      var moved := MoveCall(ren, context, call).value.args;
      forall i | 0 <= i < |args|
        ensures ArgTerm(ren.record(context), moved[i]) == MoveTerm(ren, ArgTerm(context, args[i]))
      {
        if args[i].RefArg? { MovedRefTerm(ren, context, args[i].ref); }
      }
      assert ArgTerms(ren.record(context), moved) == MoveTerm(ren, Mix(ArgTerms(context, args))).parts;
      assert CallTerm(h, ren.record(context), MoveCall(ren, context, call)).parts ==
             MoveTerm(ren, CallTerm(h, context, call)).parts;
    }
  }

  lemma {:induction false} MovedFieldTerm(h: Hasher, ren: Renaming, endian: Endianness, context: string, f: Field)
    requires GoodRanges(f)
    ensures GoodRanges(MoveField(ren, context, f))
    ensures FieldTerm(h, endian, ren.record(context), MoveField(ren, context, f)) == MoveTerm(ren, FieldTerm(h, endian, context, f))
  {
    MovedValuesTerm(h, ren, context, f);
    MovedCallTerm(h, ren, context, f.fdpCall);
    MovedSizeTerm(ren, context, f.len);
    MovedSizeTerm(ren, context, f.byteSize);
    MovedItemsTerm(ren, context, f.items);
    var parts := FieldParts(h, endian, context, f);
    var parts' := FieldParts(h, endian, ren.record(context), MoveField(ren, context, f));
    forall i | 0 <= i < |parts|
      ensures parts'[i] == MoveTerm(ren, parts[i])
    {
    }
    assert parts' == seq(|parts|, i requires 0 <= i < |parts| => MoveTerm(ren, parts[i]));
  }

  lemma {:induction false} MovedSizeTerm(ren: Renaming, context: string, size: Option<SizeDescriptor>)
    ensures SizeTerm(ren.record(context), MoveSize(ren, context, size)) == MoveTerm(ren, SizeTerm(context, size))
  {
    if size.Some? { MovedNumTerm(ren, context, size.value, AsWord); }
  }

  lemma {:induction false} MovedItemsTerm(ren: Renaming, context: string, items: Option<Ref>)
    ensures ItemsTerm(ren.record(context), if items.None? then None else Some(MoveRef(ren, context, items.value)))
         == MoveTerm(ren, ItemsTerm(context, items))
  {
    if items.Some? { MovedRefTerm(ren, context, items.value); }
  }

  lemma {:induction false} MovedRecordTerm(ren: Renaming, r: Record)
    ensures RecordTerm(MoveRecord(ren, r)) == MoveTerm(ren, RecordTerm(r))
  {
    var asks, asks' := FieldAsks(r), FieldAsks(MoveRecord(ren, r));
    assert asks' == seq(|asks|, i requires 0 <= i < |asks| => MoveTerm(ren, asks[i]));
    if r.kind.Struct? {
      assert [Lit(Word(0))] + asks' == MoveTerm(ren, RecordTerm(r)).parts;
    }
  }

  lemma {:induction false} RenamedSimulates(h: Hasher, s: SaneRecords, s': SaneRecords, ren: Renaming)
    requires Renamed(s, s', ren)
    ensures Simulates(h, s, s', ren)
  {
    forall n | Present(s, n)
      ensures Present(s', Move(ren, n)) && TermOf(h, s', Move(ren, n)) == MoveTerm(ren, TermOf(h, s, n))
    {
      var r := s.named[n.record];
      if n.RecordOf? {
        MovedRecordTerm(ren, r);
      } else {
        var f := FindField(r.fields, n.field).value;
        var i :| 0 <= i < |r.fields| && r.fields[i] == f;
        var r' := s'.named[ren.record(n.record)];
        assert r'.fields[i] == MoveField(ren, r.name, f);
        FindsEachField(r'.fields, i);
        MovedFieldTerm(h, ren, s.defaultEndian, n.record, f);
      }
    }
  }

  lemma {:induction false} RenamedInts(s: SaneRecords, s': SaneRecords, ren: Renaming)
    requires Renamed(s, s', ren) && IntsHoldInts(s')
    ensures IntsHoldInts(s)
  {
    forall n, f | n in s.named && f in s.named[n].fields
      ensures GoodInts(f)
    {
      var r := s.named[n];
      var i :| 0 <= i < |r.fields| && r.fields[i] == f;
      var r' := s'.named[ren.record(n)];
      assert r'.fields[i] == MoveField(ren, r.name, f);
      MovedValuesTerm(Hasher(ws => Word(0), bs => Word(0), bs => Word(0)), ren, n, f);
    }
  }

  /** Consistently renaming records and fields changes no hash, and not whether hashing succeeds. */
  lemma {:induction false} RenamingKeepsHashes(h: Hasher, s: SaneRecords, s': SaneRecords, ren: Renaming, back: Renaming)
    requires Renamed(s, s', ren) && Renamed(s', s, back)
    requires forall n {:trigger Move(ren, n)} :: Move(back, Move(ren, n)) == n
    requires forall n {:trigger Move(back, n)} :: Move(ren, Move(back, n)) == n
    ensures SameHashes(h, s, s', ren) && (Sound(h, s) <==> Sound(h, s'))
  {
    RenamedSimulates(h, s, s', ren);
    RenamedSimulates(h, s', s, back);
    SimulationKeepsHashes(h, s, s', ren);
    if Sound(h, s) {
      var rank :| Ranked(h, s, rank);
      SimulationKeepsOrder(h, s', s, back, ren, rank);
      RenamedInts(s', s, back);
    }
    if Sound(h, s') {
      var rank' :| Ranked(h, s', rank');
      SimulationKeepsOrder(h, s, s', ren, back, rank');
      RenamedInts(s, s', ren);
    }
  }

  /* Other ways to write the same schema down */

  function Same(): Renaming {
    Renaming(r => r, (r, f) => f)
  }

  lemma {:induction false} MovedNowhere(t: Term)
    ensures MoveTerm(Same(), t) == t
  {
    match t
    case Lit(_) =>
    case Ask(_) =>
    case Mix(parts) =>
      forall i | 0 <= i < |parts| ensures MoveTerm(Same(), parts[i]) == parts[i] { MovedNowhere(parts[i]); }
    case Sorted(_, parts) =>
      forall i | 0 <= i < |parts| ensures MoveTerm(Same(), parts[i]) == parts[i] { MovedNowhere(parts[i]); }
  }

  /** The constants are the same integers, and the other values the same in the same order. */
  ghost predicate SameValues(vs: seq<FieldValue>, us: seq<FieldValue>) {
    && Open(vs) == Open(us) && (AllIntegers(vs) <==> AllIntegers(us))
    && forall x :: Denotes(vs, x) <==> Denotes(us, x)
  }

  ghost predicate SameField(f: Field, g: Field) {
    || f == g
    || (f.kind.Int? && f.possibleValues.Some? && g.possibleValues.Some?
        && g == f.(possibleValues := g.possibleValues)
        && SameValues(f.possibleValues.value, g.possibleValues.value))
  }

  /** Up to the order of fields, in a union, and the way their constants are written. */
  ghost predicate SameRecord(r: Record, r': Record) {
    && r'.name == r.name && r'.kind == r.kind
    && (forall f | f in r.fields :: exists g | g in r'.fields :: SameField(f, g))
    && (if r.kind.Union? then multiset(FieldAsks(r)) == multiset(FieldAsks(r')) else FieldAsks(r) == FieldAsks(r'))
  }

  ghost predicate Rewritten(s: SaneRecords, s': SaneRecords) {
    && s'.defaultEndian == s.defaultEndian
    && forall r {:trigger s.named[r]} | r in s.named :: r in s'.named && SameRecord(s.named[r], s'.named[r])
  }

  /** Equal integer sets have equal range lists, because a set has only one. */
  lemma {:induction false} SameRanges(vs: seq<FieldValue>, us: seq<FieldValue>)
    requires Ascending(vs) && Ascending(us) && SameValues(vs, us)
    ensures Normalised(vs) == Normalised(us)
  {
    forall x
      ensures Covers(Ranges(vs), x) <==> Covers(Ranges(us), x)
    {
      RangesDenote(vs, x);
      RangesDenote(us, x);
    }
    CanonicalIsUnique(Ranges(vs), Ranges(us));
  }

  lemma {:induction false} SameFieldTerm(h: Hasher, endian: Endianness, context: string, f: Field, g: Field)
    requires GoodRanges(f) && GoodRanges(g) && SameField(f, g)
    ensures FieldTerm(h, endian, context, f) == FieldTerm(h, endian, context, g) && (GoodInts(f) <==> GoodInts(g))
  {
    if f != g { SameRanges(f.possibleValues.value, g.possibleValues.value); }
  }

  lemma {:induction false} EvalsConcat(h: Hasher, env: map<Target, Word>, ts: seq<Term>, us: seq<Term>)
    ensures Evals(h, env, ts + us) == Evals(h, env, ts) + Evals(h, env, us)
  {
  }

  /** Taking one term out of a list takes its word out of the words. */
  lemma {:induction false} EvalsWithout(h: Hasher, env: map<Target, Word>, us: seq<Term>, i: nat)
    requires i < |us|
    ensures multiset(us) == multiset(us[..i] + us[i + 1..]) + multiset{us[i]}
    ensures multiset(Evals(h, env, us)) == multiset(Evals(h, env, us[..i] + us[i + 1..])) + multiset{Eval(h, env, us[i])}
  {
    assert us == us[..i] + ([us[i]] + us[i + 1..]);
    EvalsConcat(h, env, us[..i], [us[i]] + us[i + 1..]);
    EvalsConcat(h, env, [us[i]], us[i + 1..]);
    EvalsConcat(h, env, us[..i], us[i + 1..]);
    assert Evals(h, env, [us[i]]) == [Eval(h, env, us[i])];
  }

  lemma {:induction false} ShuffledEvals(h: Hasher, env: map<Target, Word>, ts: seq<Term>, us: seq<Term>)
    requires multiset(ts) == multiset(us)
    ensures multiset(Evals(h, env, ts)) == multiset(Evals(h, env, us))
    decreases |ts|
  {
    if ts == [] {
      assert |us| == |multiset(us)| == 0;
    } else {
      assert ts[0] in multiset(us);
      var i :| 0 <= i < |us| && us[i] == ts[0];
      EvalsWithout(h, env, ts, 0);
      EvalsWithout(h, env, us, i);
      assert ts[..0] + ts[1..] == ts[1..];
      assert multiset(ts[1..]) == multiset(ts) - multiset{ts[0]};
      assert multiset(us[..i] + us[i + 1..]) == multiset(us) - multiset{us[i]};
      ShuffledEvals(h, env, ts[1..], us[..i] + us[i + 1..]);
    }
  }

  lemma {:induction false} ShuffledIsAlike(h: Hasher, first: Word, ts: seq<Term>, us: seq<Term>)
    requires multiset(ts) == multiset(us)
    ensures Alike(h, Sorted(first, ts), Sorted(first, us))
  {
    forall env: map<Target, Word>
      ensures Eval(h, env, Sorted(first, ts)) == Eval(h, env, Sorted(first, us))
    {
      ShuffledEvals(h, env, ts, us);
      OrderedIsUnique(Bits, Sort(Bits, Evals(h, env, ts)), Sort(Bits, Evals(h, env, us)));
    }
    forall a
      ensures Asks(Sorted(first, ts), a) <==> Asks(Sorted(first, us), a)
    {
      ShuffledAsks(first, ts, us, a);
      ShuffledAsks(first, us, ts, a);
    }
  }

  lemma {:induction false} ShuffledAsks(first: Word, ts: seq<Term>, us: seq<Term>, a: Target)
    requires multiset(ts) == multiset(us)
    ensures Asks(Sorted(first, ts), a) ==> Asks(Sorted(first, us), a)
  {
    if Asks(Sorted(first, ts), a) {
      var i :| 0 <= i < |ts| && Asks(ts[i], a);
      assert ts[i] in multiset(us);
      var j :| 0 <= j < |us| && us[j] == ts[i];
      assert Asks(us[j], a);
    }
  }

  lemma {:induction false} RewrittenSimulates(h: Hasher, s: SaneRecords, s': SaneRecords)
    requires Rewritten(s, s')
    ensures Simulates(h, s, s', Same())
  {
    forall n | Present(s, n)
      ensures Present(s', Move(Same(), n)) && Alike(h, MoveTerm(Same(), TermOf(h, s, n)), TermOf(h, s', Move(Same(), n)))
    {
      assert Move(Same(), n) == n;
      MovedNowhere(TermOf(h, s, n));
      var r, r' := s.named[n.record], s'.named[n.record];
      if n.FieldOf? {
        var f := FindField(r.fields, n.field).value;
        var g :| g in r'.fields && SameField(f, g);
        var i :| 0 <= i < |r'.fields| && r'.fields[i] == g;
        FindsEachField(r'.fields, i);
        SameFieldTerm(h, s.defaultEndian, n.record, f, g);
      } else if r.kind.Union? {
        ShuffledIsAlike(h, Word(1), FieldAsks(r), FieldAsks(r'));
      }
    }
  }

  lemma {:induction false} RewrittenInts(s: SaneRecords, s': SaneRecords)
    requires Rewritten(s, s') && IntsHoldInts(s')
    ensures IntsHoldInts(s)
  {
    forall n, f | n in s.named && f in s.named[n].fields
      ensures GoodInts(f)
    {
      var g :| g in s'.named[n].fields && SameField(f, g);
      assert GoodInts(g);
    }
  }

  /** Permuting the fields of unions, and rewriting the constants of `int` fields without changing
      which integers they denote, changes no hash, and not whether hashing succeeds. */
  lemma {:induction false} RewritingKeepsHashes(h: Hasher, s: SaneRecords, s': SaneRecords)
    requires Rewritten(s, s') && Rewritten(s', s)
    ensures SameHashes(h, s, s', Same()) && (Sound(h, s) <==> Sound(h, s'))
  {
    RewrittenSimulates(h, s, s');
    RewrittenSimulates(h, s', s);
    SimulationKeepsHashes(h, s, s', Same());
    if Sound(h, s) {
      var rank :| Ranked(h, s, rank);
      SimulationKeepsOrder(h, s', s, Same(), Same(), rank);
      RewrittenInts(s', s);
    }
    if Sound(h, s') {
      var rank' :| Ranked(h, s', rank');
      SimulationKeepsOrder(h, s, s', Same(), Same(), rank');
      RewrittenInts(s, s');
    }
  }
}
