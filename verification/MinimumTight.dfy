/** Where sizes are written out, the minimum size of a record is the size of its least instance. */
module MinimumTight {
  import opened Options
  import opened Schema
  import opened Intervals
  import opened IntRanges
  import opened Regrouping
  import opened Layout
  import opened Unroll

  /** The size is written out and some integer has it. */
  predicate WrittenOut(size: Option<SizeDescriptor>) {
    size.Some? ==>
      match size.value
      case Single(x) => x.Val? && 0 <= x.value <= INT_MAX
      case Range(start, end) => start.Val? && end.Val? && 0 <= start.value <= end.value <= INT_MAX
  }

  /** The least integer that has it. */
  function Least(size: Option<SizeDescriptor>): (n: nat)
    requires WrittenOut(size)
  {
    if size.None? then 0
    else match size.value
         case Single(x) => x.value
         case Range(start, _) => start.value
  }

  lemma {:induction false} LeastIsAdmitted(v: Valuation, size: Option<SizeDescriptor>)
    requires WrittenOut(size)
    ensures SizeAdmits(v, size, Least(size))
  {
  }

  lemma {:induction false} LeastIsFirst(d: Depth, deps: map<string, int>, r: Record, size: Option<SizeDescriptor>)
    requires Layered(d, r) && WrittenOut(size)
    ensures First(SizeRanges(d, deps, r, size)) == Least(size)
  {
    if size.Some? {
      var num, limit := ClampedSize(size.value), TopOf(d, size.value);
      assert num == size.value;
      match num {
        case Single(x) =>
          assert NumRanges(d, deps, r, num, limit) == [Interval(x.value, x.value)];
        case Range(start, end) =>
          assert ValRanges(d, deps, r, start, limit) == [Interval(start.value, start.value)];
          assert ValRanges(d, deps, r, end, limit) == [Interval(end.value, end.value)];
          assert NumRanges(d, deps, r, num, limit) == [Interval(start.value, end.value)];
      }
    }
  }

  /** All sizes are written out; records, arrays and fields with a record have none of their own.  References
      to records resolve, and unions offer some record fields. */
  predicate AllWrittenOut(t: Named) {
    && (forall n | n in t :: t[n].byteSize.None? && (t[n].kind.Union? ==> t[n].fields != []))
    && (forall n, f | n in t && f in t[n].fields && (f.kind.Array? || f.kind.Record?) ::
          f.byteSize.None? && RecordRef(f).Some? && RecordRef(f).value in t)
    && (forall n, f | n in t && f in t[n].fields && f.kind.Array? :: WrittenOut(f.len))
    && (forall n, f | n in t && f in t[n].fields && f.kind.Record? :: f.len.None?)
    && (forall n, f | n in t && f in t[n].fields && IsLeaf(f) ::
          WrittenOut(f.byteSize) && (f.byteSize.None? && !f.kind.String? ==> WrittenOut(f.len)))
    && UnionsOfRecords(t)
  }

  /** No sum or product exceeds a machine word. */
  ghost predicate NoOverflow(t: Named, d: string -> Depth, rank: string -> nat, deps: map<string, int>)
    requires Grounded(t, d, rank) && AllWrittenOut(t)
  {
    && (forall n | n in t :: FieldsMin(t, d, rank, deps, t[n], |t[n].fields|) < WORD_SIZE)
    && forall n, f | n in t && f in t[n].fields && f.kind.Array? ::
         Least(f.len) * RecordMin(t, d, rank, deps, t[RecordRef(f).value]) < WORD_SIZE
  }

  /** `vals` gives each record values that its lists and the dependencies allow. */
  ghost predicate HasValues(t: Named, deps: map<string, int>, vals: string -> Valuation) {
    forall n {:trigger vals(n)} | n in t :: Consistent(vals(n), t[n].fields) && Known(vals(n), deps)
  }

  /** The leaves accept any bytes. */
  ghost predicate AcceptsAll(c: Codec) {
    forall f, x, bytes :: c(f, x, bytes)
  }

  ghost predicate Setting(c: Codec, t: Named, d: string -> Depth, rank: string -> nat, deps: map<string, int>, vals: string -> Valuation) {
    Grounded(t, d, rank) && AllWrittenOut(t) && NoOverflow(t, d, rank, deps) && HasValues(t, deps, vals) && AcceptsAll(c)
  }

  function Repeat(i: Instance, n: nat): seq<Instance> {
    if n == 0 then [] else [i] + Repeat(i, n - 1)
  }

  lemma {:induction false} Repeated(c: Codec, t: Named, deps: map<string, int>, q: Record, i: Instance, n: nat)
    requires RecordOk(c, t, q, i) && Agrees(deps, i)
    ensures |Repeat(i, n)| == n && RecordsOk(c, t, q, Repeat(i, n)) && |AllWritten(Repeat(i, n))| == n * |Written(i)|
    ensures forall x | x in Repeat(i, n) :: Agrees(deps, x)
  {
    OneMoreTime(n, |Written(i)|);
    if n > 0 {
      Repeated(c, t, deps, q, i, n - 1);
      assert Repeat(i, n)[1..] == Repeat(i, n - 1);
    }
  }

  /** Which alternative has the least minimum. */
  lemma {:induction false} LeastOfAlternatives(t: Named, d: string -> Depth, rank: string -> nat, deps: map<string, int>, r: Record, k: nat) returns (j: nat)
    requires Grounded(t, d, rank) && r.name in t && t[r.name] == r && 0 < k <= |r.fields|
    ensures j < k && AlternativesMin(t, d, rank, deps, r, k) == AlternativeMin(t, d, rank, deps, r, r.fields[j])
  {
    j := k - 1;
    if k > 1 {
      var before := LeastOfAlternatives(t, d, rank, deps, r, k - 1);
      if AlternativesMin(t, d, rank, deps, r, k - 1) < AlternativeMin(t, d, rank, deps, r, r.fields[k - 1]) { j := before; }
    }
  }

  /** Each record has a conforming instance of exactly as many bytes as its minimum says. */
  lemma {:induction false} MinimumIsReached(c: Codec, t: Named, d: string -> Depth, rank: string -> nat, deps: map<string, int>, vals: string -> Valuation, r: Record)
    returns (i: Instance)
    requires Setting(c, t, d, rank, deps, vals) && r.name in t && t[r.name] == r
    ensures RecordOk(c, t, r, i) && Agrees(deps, i) && |Written(i)| == RecordMin(t, d, rank, deps, r)
    decreases rank(r.name), 2, 0
  {
    var v := vals(r.name);
    match r.kind
    case Struct =>
      var xs := LeastFields(c, t, d, rank, deps, vals, r, |r.fields|);
      assert r.fields[..|r.fields|] == r.fields;
      i := Fields(v, xs);
    case Union =>
      var j := LeastOfAlternatives(t, d, rank, deps, r, |r.fields|);
      var f := r.fields[j];
      assert f in t[r.name].fields;
      var part := MinimumIsReached(c, t, d, rank, deps, vals, t[RecordRef(f).value]);
      i := Choice(v, j, part);
      assert FieldOk(c, t, v, f, part);
  }

  lemma {:induction false} LeastFields(c: Codec, t: Named, d: string -> Depth, rank: string -> nat, deps: map<string, int>, vals: string -> Valuation, r: Record, k: nat)
    returns (xs: seq<Instance>)
    requires Setting(c, t, d, rank, deps, vals) && r.name in t && t[r.name] == r && k <= |r.fields|
    ensures FieldsOk(c, t, vals(r.name), r.fields[..k], xs) && |AllWritten(xs)| == FieldsMin(t, d, rank, deps, r, k)
    ensures forall x | x in xs :: Agrees(deps, x)
    decreases rank(r.name), 1, k
  {
    xs := [];
    if k > 0 {
      var f := r.fields[k - 1];
      var before := LeastFields(c, t, d, rank, deps, vals, r, k - 1);
      var x := LeastField(c, t, d, rank, deps, vals, r, f);
      assert r.fields[..k] == r.fields[..k - 1] + [f];
      OneFieldMore(c, t, vals(r.name), r.fields[..k - 1], f, before, x);
      xs := before + [x];
    }
  }

  lemma {:induction false} OneFieldMore(c: Codec, t: Named, v: Valuation, fs: seq<Field>, f: Field, xs: seq<Instance>, x: Instance)
    requires FieldsOk(c, t, v, fs, xs) && FieldOk(c, t, v, f, x)
    ensures FieldsOk(c, t, v, fs + [f], xs + [x]) && |AllWritten(xs + [x])| == |AllWritten(xs)| + |Written(x)|
  {
    OneField(c, t, v, f, x);
    FieldsOkConcat(c, t, v, fs, [f], xs, [x]);
    BytesConcat(xs, [x]);
  }

  lemma {:induction false} OneField(c: Codec, t: Named, v: Valuation, f: Field, x: Instance)
    requires FieldOk(c, t, v, f, x)
    ensures FieldsOk(c, t, v, [f], [x]) && AllWritten([x]) == Written(x)
  {
    assert AllWritten([x][1..]) == [];
    assert FieldsOk(c, t, v, [f][1..], [x][1..]);
  }

  lemma {:induction false} LeastField(c: Codec, t: Named, d: string -> Depth, rank: string -> nat, deps: map<string, int>, vals: string -> Valuation, r: Record, f: Field)
    returns (i: Instance)
    requires Setting(c, t, d, rank, deps, vals) && r.name in t && t[r.name] == r && f in r.fields
    ensures FieldOk(c, t, vals(r.name), f, i) && Agrees(deps, i) && |Written(i)| == FieldMin(t, d, rank, deps, r, f)
    decreases rank(r.name), 0
  {
    var v := vals(r.name);
    assert f in t[r.name].fields;
    match f.kind
    case Array =>
      var q := t[RecordRef(f).value];
      var item := MinimumIsReached(c, t, d, rank, deps, vals, q);
      i := LeastArray(c, t, d, rank, deps, v, r, f, q, item);
    case Record =>
      i := MinimumIsReached(c, t, d, rank, deps, vals, t[RecordRef(f).value]);
    case _ =>
      i := LeastLeaf(c, t, d, rank, deps, v, r, f);
  }

  lemma {:induction false} LeastArray(c: Codec, t: Named, d: string -> Depth, rank: string -> nat, deps: map<string, int>, v: Valuation, r: Record, f: Field, q: Record, item: Instance)
    returns (i: Instance)
    requires Grounded(t, d, rank) && AllWrittenOut(t) && NoOverflow(t, d, rank, deps)
    requires r.name in t && t[r.name] == r && f in r.fields && f.kind.Array? && RecordRef(f) == Some(q.name) && q.name in t && t[q.name] == q
    requires RecordOk(c, t, q, item) && Agrees(deps, item) && |Written(item)| == RecordMin(t, d, rank, deps, q)
    ensures FieldOk(c, t, v, f, i) && Agrees(deps, i) && |Written(i)| == FieldMin(t, d, rank, deps, r, f)
  {
    assert f in t[r.name].fields;
    var n := Least(f.len);
    ArrayMin(t, d, rank, deps, r, f, q);
    Repeated(c, t, deps, q, item, n);
    i := Items(Repeat(item, n));
    ItemsOk(c, t, v, f, q, i);
  }

  lemma {:induction false} ArrayMin(t: Named, d: string -> Depth, rank: string -> nat, deps: map<string, int>, r: Record, f: Field, q: Record)
    requires Grounded(t, d, rank) && AllWrittenOut(t) && NoOverflow(t, d, rank, deps)
    requires r.name in t && t[r.name] == r && f in r.fields && f.kind.Array? && RecordRef(f) == Some(q.name) && q.name in t && t[q.name] == q
    ensures WrittenOut(f.len) && FieldMin(t, d, rank, deps, r, f) == Least(f.len) * RecordMin(t, d, rank, deps, q)
  {
    assert f in t[r.name].fields;
    LeastIsFirst(d(q.name), deps, q, f.len);
    var n, each := Least(f.len), RecordMin(t, d, rank, deps, q);
    assert n * each < WORD_SIZE;
    assert each == 0 ==> n * each == 0;
    InOneWord(n, each);
  }

  lemma {:induction false} InOneWord(n: nat, each: nat)
    requires n * each < WORD_SIZE
    ensures Wrapped(n * each) == n * each
  {
    OneMoreTime(n, each);
  }

  lemma {:induction false} ItemsOk(c: Codec, t: Named, v: Valuation, f: Field, q: Record, i: Instance)
    requires f.kind.Array? && f.byteSize.None? && WrittenOut(f.len) && RecordRef(f) == Some(q.name) && q.name in t && t[q.name] == q
    requires i.Items? && |i.items| == Least(f.len) && RecordsOk(c, t, q, i.items)
    ensures FieldOk(c, t, v, f, i)
  {
    LeastIsAdmitted(v, f.len);
  }

  lemma {:induction false} LeastLeaf(c: Codec, t: Named, d: string -> Depth, rank: string -> nat, deps: map<string, int>, v: Valuation, r: Record, f: Field)
    returns (i: Instance)
    requires Grounded(t, d, rank) && AllWrittenOut(t) && AcceptsAll(c)
    requires r.name in t && t[r.name] == r && f in r.fields && IsLeaf(f)
    ensures FieldOk(c, t, v, f, i) && Agrees(deps, i) && |Written(i)| == FieldMin(t, d, rank, deps, r, f)
  {
    assert f in t[r.name].fields;
    var size := if f.byteSize.Some? then f.byteSize else if f.kind.String? then None else f.len;
    LeastIsAdmitted(v, size);
    LeastIsFirst(d(r.name), deps, r, size);
    i := Leaf(seq(Least(size), k => 0));
  }

  lemma {:induction false} WrittenOutFits(t: Named, d: string -> Depth, rank: string -> nat, deps: map<string, int>)
    requires Grounded(t, d, rank) && AllWrittenOut(t)
    ensures LengthsFit(t, d, rank, deps) && UnionsOfRecords(t)
  {
    forall n, f | n in t && f in t[n].fields && f.kind.Array? && RecordRef(f).Some? && RecordRef(f).value in t
      ensures LengthFits(d(n), d(RecordRef(f).value), deps, t[n], t[RecordRef(f).value], f.len)
    {
      assert WrittenOut(f.len);
    }
  }

  /** So the minimum is the greatest lower bound. */
  lemma {:induction false} MinimumIsGreatest(c: Codec, t: Named, d: string -> Depth, rank: string -> nat, deps: map<string, int>, vals: string -> Valuation, n: string, m: int)
    requires Setting(c, t, d, rank, deps, vals) && Clear(t, d, deps) && Fits(deps) && n in t
    ensures (forall i | RecordOk(c, t, t[n], i) && Agrees(deps, i) :: m <= |Written(i)|) <==> m <= RecordMin(t, d, rank, deps, t[n])
  {
    if m <= RecordMin(t, d, rank, deps, t[n]) {
      WrittenOutFits(t, d, rank, deps);
      ValidMinimumIsLowerBound(c, t, d, rank, deps);
    } else {
      var i := MinimumIsReached(c, t, d, rank, deps, vals, t[n]);
    }
  }
}
