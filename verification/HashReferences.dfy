/** What the hash of a record or field needs, read off the schema itself. */
module HashReferences {
  import opened Options
  import opened Schema
  import opened StructuralHash

  /* References in a schema */

  ghost predicate NumHas<T>(num: NumValue<T>, ref: Ref) {
    match num
    case Single(v) => v == Reference(ref)
    case Range(start, end) => start == Reference(ref) || end == Reference(ref)
  }

  ghost predicate SizeHas(size: Option<SizeDescriptor>, ref: Ref) {
    size.Some? && NumHas(size.value, ref)
  }

  ghost predicate ValueHas(v: FieldValue, ref: Ref) {
    match v
    case BytesValue(bytes) => bytes == Reference(ref)
    case IntValue(num) => NumHas(num, ref)
    case FloatValue(float) => NumHas(float, ref)
    case StringValue(text) => text == Reference(ref)
  }

  /** The reference occurs in a size, a possible value, the items or a call argument of the field. */
  ghost predicate FieldHas(f: Field, ref: Ref) {
    || SizeHas(f.len, ref)
    || SizeHas(f.byteSize, ref)
    || (f.possibleValues.Some? && exists i :: 0 <= i < |f.possibleValues.value| && ValueHas(f.possibleValues.value[i], ref))
    || f.items == Some(ref)
    || (f.fdpCall.Some? && exists i :: 0 <= i < |f.fdpCall.value.args| && f.fdpCall.value.args[i] == RefArg(ref))
  }

  /** A reference to a field means one of the same record. */
  ghost predicate Means(record: string, ref: Ref, a: Target) {
    match ref.kind
    case ToField => a == FieldOf(record, ref.name)
    case ToRecord => a == RecordOf(ref.name)
  }

  ghost predicate FieldRefers(record: string, f: Field, a: Target) {
    exists ref :: FieldHas(f, ref) && Means(record, ref, a)
  }

  /** A record refers to its fields, a field to what its references mean. */
  ghost predicate Refers(s: SaneRecords, n: Target, a: Target) {
    match n
    case RecordOf(r) => r in s.named && exists f :: f in s.named[r].fields && a == FieldOf(r, f.name)
    case FieldOf(r, name) => r in s.named && exists f :: f in s.named[r].fields && f.name == name && FieldRefers(r, f, a)
  }

  /* The hash needs just that */

  lemma {:induction false} PairAsks(t: Term, u: Term, a: Target)
    ensures Asks(Mix([t, u]), a) <==> Asks(t, a) || Asks(u, a)
  {
    var parts := [t, u];
    assert parts[0] == t && parts[1] == u;
    if Asks(t, a) { assert Asks(parts[0], a); }
    if Asks(u, a) { assert Asks(parts[1], a); }
  }

  lemma {:induction false} RefAsks(context: string, ref: Ref, a: Target)
    ensures Asks(RefTerm(context, ref), a) <==> Means(context, ref, a)
  {
    var kind := Lit(if ref.kind.ToField? then Word(0) else Word(1));
    PairAsks(kind, Ask(TargetOf(context, ref)), a);
  }

  lemma {:induction false} ValAsks<T>(context: string, v: ValOrRef<T>, word: T -> Word, a: Target)
    ensures Asks(ValOrRefTerm(context, v, word), a) <==> v.Reference? && Means(context, v.ref, a)
  {
    match v
    case Val(x) => PairAsks(Lit(Word(0)), Lit(word(x)), a);
    case Reference(ref) =>
      RefAsks(context, ref, a);
      PairAsks(Lit(Word(1)), RefTerm(context, ref), a);
  }

  lemma {:induction false} NumAsks<T>(context: string, num: NumValue<T>, word: T -> Word, a: Target)
    ensures Asks(NumTerm(context, num, word), a) <==> exists ref :: NumHas(num, ref) && Means(context, ref, a)
  {
    match num
    case Single(v) =>
      ValAsks(context, v, word, a);
      PairAsks(Lit(Word(0)), ValOrRefTerm(context, v, word), a);
      if v.Reference? && Means(context, v.ref, a) { assert NumHas(num, v.ref); }
    case Range(start, end) =>
      var t, u := ValOrRefTerm(context, start, word), ValOrRefTerm(context, end, word);
      ValAsks(context, start, word, a);
      ValAsks(context, end, word, a);
      PairAsks(t, u, a);
      PairAsks(Lit(Word(1)), Mix([t, u]), a);
      if start.Reference? && Means(context, start.ref, a) { assert NumHas(num, start.ref); }
      if end.Reference? && Means(context, end.ref, a) { assert NumHas(num, end.ref); }
  }

  lemma {:induction false} SizeAsks(context: string, size: Option<SizeDescriptor>, a: Target)
    ensures Asks(SizeTerm(context, size), a) <==> exists ref :: SizeHas(size, ref) && Means(context, ref, a)
  {
    if size.Some? {
      NumAsks(context, size.value, AsWord, a);
      if ref :| NumHas(size.value, ref) && Means(context, ref, a) { assert SizeHas(size, ref); }
    }
  }

  lemma {:induction false} ValueAsks(h: Hasher, context: string, v: FieldValue, a: Target)
    ensures Asks(ValueTerm(h, context, v), a) <==> exists ref :: ValueHas(v, ref) && Means(context, ref, a)
  {
    match v
    case IntValue(num) =>
      NumAsks(context, num, AsWord, a);
      PairAsks(Lit(Word(0)), NumTerm(context, num, AsWord), a);
      if ref :| NumHas(num, ref) && Means(context, ref, a) { assert ValueHas(v, ref); }
    case FloatValue(num) =>
      NumAsks(context, num, FloatBits, a);
      PairAsks(Lit(Word(1)), NumTerm(context, num, FloatBits), a);
      if ref :| NumHas(num, ref) && Means(context, ref, a) { assert ValueHas(v, ref); }
    case StringValue(text) =>
      ValAsks(context, text, h.text, a);
      PairAsks(Lit(Word(2)), ValOrRefTerm(context, text, h.text), a);
      if text.Reference? && Means(context, text.ref, a) { assert ValueHas(v, text.ref); }
    case BytesValue(bytes) =>
      ValAsks(context, bytes, h.bytes, a);
      PairAsks(Lit(Word(3)), ValOrRefTerm(context, bytes, h.bytes), a);
      if bytes.Reference? && Means(context, bytes.ref, a) { assert ValueHas(v, bytes.ref); }
  }

  /** A constant has no reference, so normalising loses none. */
  lemma {:induction false} OpenKeepsReferences(vs: seq<FieldValue>, ref: Ref)
    ensures (exists v :: v in Open(vs) && ValueHas(v, ref)) <==> exists v :: v in vs && ValueHas(v, ref)
  {
    if vs != [] {
      var init, last := vs[..|vs| - 1], vs[|vs| - 1];
      OpenKeepsReferences(init, ref);
      assert vs == init + [last];
      if v :| v in vs && ValueHas(v, ref) {
        if v == last {
          assert !IsConstant(last) && last in Open(vs);
        } else {
          assert v in init;
        }
      }
    }
  }

  ghost predicate AnyHas(vs: seq<FieldValue>, ref: Ref) {
    exists v :: v in vs && ValueHas(v, ref)
  }

  lemma {:induction false} ValuesHave(kind: FieldKind, vs: seq<FieldValue>, ref: Ref)
    requires kind.Int? ==> Ascending(vs)
    ensures AnyHas(Values(kind, vs), ref) <==> AnyHas(vs, ref)
  {
    if kind.Int? {
      var open, rest := Open(vs), RangeValues(Ranges(vs));
      OpenKeepsReferences(vs, ref);
      forall v | v in rest
        ensures !ValueHas(v, ref)
      {
        var i :| 0 <= i < |rest| && rest[i] == v;
      }
      assert forall v :: v in open + rest <==> v in open || v in rest;
    }
  }

  lemma {:induction false} ListAsks(h: Hasher, context: string, vs: seq<FieldValue>, a: Target)
    ensures Asks(Mix(ValueTerms(h, context, vs)), a) <==> exists ref :: AnyHas(vs, ref) && Means(context, ref, a)
  {
    var parts := ValueTerms(h, context, vs);
    if Asks(Mix(parts), a) {
      var i :| 0 <= i < |parts| && Asks(parts[i], a);
      ValueAsks(h, context, vs[i], a);
      var ref :| ValueHas(vs[i], ref) && Means(context, ref, a);
      assert AnyHas(vs, ref);
    }
    if ref :| AnyHas(vs, ref) && Means(context, ref, a) {
      var v :| v in vs && ValueHas(v, ref);
      var i :| 0 <= i < |vs| && vs[i] == v;
      ValueAsks(h, context, vs[i], a);
      assert Asks(parts[i], a);
    }
  }

  ghost predicate ValuesHas(f: Field, ref: Ref) {
    f.possibleValues.Some? && exists i :: 0 <= i < |f.possibleValues.value| && ValueHas(f.possibleValues.value[i], ref)
  }

  lemma {:induction false} ValuesAsk(h: Hasher, context: string, f: Field, a: Target)
    requires GoodRanges(f)
    ensures Asks(ValuesTerm(h, context, f), a) <==> exists ref :: ValuesHas(f, ref) && Means(context, ref, a)
  {
    if f.possibleValues.Some? {
      var vs := f.possibleValues.value;
      ListAsks(h, context, Values(f.kind, vs), a);
      forall ref
        ensures AnyHas(Values(f.kind, vs), ref) <==> ValuesHas(f, ref)
      {
        ValuesHave(f.kind, vs, ref);
        if v :| v in vs && ValueHas(v, ref) {
          var i :| 0 <= i < |vs| && vs[i] == v;
        }
      }
    }
  }

  lemma {:induction false} ItemsAsk(context: string, items: Option<Ref>, a: Target)
    ensures Asks(ItemsTerm(context, items), a) <==> items.Some? && Means(context, items.value, a)
  {
    if items.Some? { RefAsks(context, items.value, a); }
  }

  lemma {:induction false} ArgAsks(context: string, arg: FdpArg, a: Target)
    ensures Asks(ArgTerm(context, arg), a) <==> arg.RefArg? && Means(context, arg.ref, a)
  {
    match arg
    case IntArg(n) => PairAsks(Lit(Word(0)), Lit(n), a);
    case FloatArg(f) => PairAsks(Lit(Word(1)), Lit(f.asInteger), a);
    case RefArg(ref) =>
      RefAsks(context, ref, a);
      PairAsks(Lit(Word(2)), RefTerm(context, ref), a);
  }

  ghost predicate CallHas(call: Option<FdpCall>, ref: Ref) {
    call.Some? && exists i :: 0 <= i < |call.value.args| && call.value.args[i] == RefArg(ref)
  }

  lemma {:induction false} ArgsAsk(context: string, args: seq<FdpArg>, a: Target)
    ensures Asks(Mix(ArgTerms(context, args)), a) <==> exists i :: 0 <= i < |args| && args[i].RefArg? && Means(context, args[i].ref, a)
  {
    var parts := ArgTerms(context, args);
    if Asks(Mix(parts), a) {
      var i :| 0 <= i < |parts| && Asks(parts[i], a);
      ArgAsks(context, args[i], a);
    }
    if i :| 0 <= i < |args| && args[i].RefArg? && Means(context, args[i].ref, a) {
      ArgAsks(context, args[i], a);
      assert Asks(parts[i], a);
    }
  }

  lemma {:induction false} CallAsks(h: Hasher, context: string, call: Option<FdpCall>, a: Target)
    ensures Asks(CallTerm(h, context, call), a) <==> exists ref :: CallHas(call, ref) && Means(context, ref, a)
  {
    if call.Some? {
      var args := call.value.args;
      var parts := [Lit(MethodWord(h, call.value.api)), Lit(SizeWord(call.value.typeSize)), Mix(ArgTerms(context, args))];
      ArgsAsk(context, args, a);
      if Asks(Mix(parts), a) {
        var i :| 0 <= i < |parts| && Asks(parts[i], a);
        assert i == 2;
        var j :| 0 <= j < |args| && args[j].RefArg? && Means(context, args[j].ref, a);
        assert CallHas(call, args[j].ref);
      }
      if ref :| CallHas(call, ref) && Means(context, ref, a) {
        var j :| 0 <= j < |args| && args[j] == RefArg(ref);
        assert Asks(parts[2], a);
      }
    }
  }

  lemma {:induction false} FieldAsksParts(h: Hasher, endian: Endianness, context: string, f: Field, a: Target)
    requires GoodRanges(f)
    ensures Asks(FieldTerm(h, endian, context, f), a) <==>
            || Asks(SizeTerm(context, f.len), a) || Asks(SizeTerm(context, f.byteSize), a) || Asks(ValuesTerm(h, context, f), a)
            || Asks(ItemsTerm(context, f.items), a) || Asks(CallTerm(h, context, f.fdpCall), a)
  {
    var parts := FieldParts(h, endian, context, f);
    assert Asks(parts[1], a) ==> Asks(Mix(parts), a);
    assert Asks(parts[2], a) ==> Asks(Mix(parts), a);
    assert Asks(parts[3], a) ==> Asks(Mix(parts), a);
    assert Asks(parts[4], a) ==> Asks(Mix(parts), a);
    assert Asks(parts[8], a) ==> Asks(Mix(parts), a);
  }

  lemma {:induction false} FieldAsksReferences(h: Hasher, endian: Endianness, context: string, f: Field, a: Target)
    requires GoodRanges(f)
    ensures Asks(FieldTerm(h, endian, context, f), a) <==> FieldRefers(context, f, a)
  {
    FieldAsksParts(h, endian, context, f, a);
    SizeAsks(context, f.len, a);
    SizeAsks(context, f.byteSize, a);
    ValuesAsk(h, context, f, a);
    ItemsAsk(context, f.items, a);
    CallAsks(h, context, f.fdpCall, a);
    assert forall ref :: FieldHas(f, ref) <==>
      SizeHas(f.len, ref) || SizeHas(f.byteSize, ref) || ValuesHas(f, ref) || f.items == Some(ref) || CallHas(f.fdpCall, ref);
  }

  lemma {:induction false} RecordAsks(r: Record, a: Target)
    ensures Asks(RecordTerm(r), a) <==> exists f :: f in r.fields && a == FieldOf(r.name, f.name)
  {
    var asks := FieldAsks(r);
    var parts := if r.kind.Union? then asks else [Lit(Word(0))] + asks;
    if Asks(RecordTerm(r), a) {
      var i :| 0 <= i < |parts| && Asks(parts[i], a);
      var j := if r.kind.Union? then i else i - 1;
      assert parts[i] == asks[j] == Ask(FieldOf(r.name, r.fields[j].name));
    }
    if f :| f in r.fields && a == FieldOf(r.name, f.name) {
      var j :| 0 <= j < |r.fields| && r.fields[j] == f;
      assert asks[j] == Ask(a);
      assert parts[if r.kind.Union? then j else j + 1] == asks[j];
    }
  }

  /** Hashing needs the hash of `a` exactly if the schema refers to it. */
  lemma {:induction false} EdgesAreReferences(h: Hasher, s: SaneRecords, n: Target, a: Target)
    ensures Edge(h, s, n, a) <==> Refers(s, n, a)
  {
    if n.record in s.named {
      var r := s.named[n.record];
      if n.RecordOf? {
        RecordAsks(r, a);
      } else {
        var found := FindField(r.fields, n.field);
        if found.Some? {
          FieldAsksReferences(h, s.defaultEndian, n.record, found.value, a);
          forall f | f in r.fields && f.name == n.field
            ensures f == found.value
          {
            var i :| 0 <= i < |r.fields| && r.fields[i] == f;
            FindsEachField(r.fields, i);
          }
        }
      }
    }
  }

  /** Some chain of references comes back to where it started. */
  ghost predicate RefersInCircle(s: SaneRecords) {
    exists p: seq<Target> :: |p| > 1 && p[0] == p[|p| - 1] && forall i | 0 <= i < |p| - 1 :: Refers(s, p[i], p[i + 1])
  }

  /** Everything that is there refers only to what is there. */
  ghost predicate AllReferencesResolve(s: SaneRecords) {
    forall n, a | Refers(s, n, a) :: Present(s, a)
  }

  /** Cycles and dangling references are those of the schema. */
  lemma {:induction false} CyclesAreOfReferences(h: Hasher, s: SaneRecords)
    ensures Cyclic(h, s) <==> RefersInCircle(s)
    ensures Resolves(h, s) <==> AllReferencesResolve(s)
  {
    forall n, a
      ensures Edge(h, s, n, a) <==> Refers(s, n, a)
      ensures Edge(h, s, n, a) ==> Present(s, n)
    {
      EdgesAreReferences(h, s, n, a);
      EdgesFromPresent(h, s, n, a);
    }
    if Cyclic(h, s) {
      var p: seq<Target> :| |p| > 1 && p[0] == p[|p| - 1] && Chain(h, s, p);
      forall i | 0 <= i < |p| - 1 ensures Refers(s, p[i], p[i + 1]) { assert Edge(h, s, p[i], p[i + 1]); }
    }
    if RefersInCircle(s) {
      var p: seq<Target> :| |p| > 1 && p[0] == p[|p| - 1] && forall i | 0 <= i < |p| - 1 :: Refers(s, p[i], p[i + 1]);
      forall i | 0 <= i < |p| - 1 ensures Edge(h, s, p[i], p[i + 1]) { assert Refers(s, p[i], p[i + 1]); }
      assert Chain(h, s, p);
    }
  }
}
