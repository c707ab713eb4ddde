/** The bytes a schema describes, and the minimum size computed for them
    (testlang/src/lib.rs:484-586). */
module Layout {
  import opened Options
  import opened Schema
  import opened Intervals
  import opened IntRanges
  import opened Regrouping

  type Named = map<string, Record>

  /* Instances */

  /** A value of a record, a field or an array.  `v` gives the integer behind each field name. */
  datatype Instance =
    | Leaf(bytes: seq<int>)
    | Items(items: seq<Instance>)
    | Fields(v: Valuation, parts: seq<Instance>)
    | Choice(v: Valuation, index: nat, part: Instance)

  /** Which bytes a leaf field accepts for which integer; nothing is assumed of it. */
  type Codec = (Field, Option<int>, seq<int>) -> bool

  function Written(i: Instance): seq<int> {
    match i
    case Leaf(bytes) => bytes
    case Items(items) => AllWritten(items)
    case Fields(_, parts) => AllWritten(parts)
    case Choice(_, _, part) => Written(part)
  }

  function AllWritten(xs: seq<Instance>): seq<int> {
    if xs == [] then [] else Written(xs[0]) + AllWritten(xs[1..])
  }

  /** `get_byte_size`. */
  function ByteSize(f: Field): Option<SizeDescriptor> {
    match f.kind
    case String => f.byteSize
    case Array => f.byteSize
    case _ => if f.byteSize.Some? then f.byteSize else f.len
  }

  /** `get_len`. */
  function Length(f: Field): Option<SizeDescriptor> {
    match f.kind
    case String => f.len
    case Array => f.len
    case _ => if f.len.Some? then f.len else f.byteSize
  }

  /** `get_record_ref`. */
  function RecordRef(f: Field): Option<string> {
    if (f.kind.Record? || f.kind.Array?) && f.items.Some? && f.items.value.kind.ToRecord? then Some(f.items.value.name) else None
  }

  predicate SizeAdmits(v: Valuation, size: Option<SizeDescriptor>, n: nat) {
    size.Some? ==> Allows(v, size.value, n)
  }

  /** The bytes of a field are as many as its byte size says, or else its length, which for strings and
      arrays counts something else. */
  predicate HasSize(v: Valuation, f: Field, n: nat) {
    && SizeAdmits(v, f.byteSize, n)
    && (f.byteSize.None? && !f.kind.String? && !f.kind.Array? ==> SizeAdmits(v, f.len, n))
  }

  ghost predicate IsValues(v: Valuation) {
    forall n | v(n).Some? :: INT_MIN <= v(n).value <= INT_MAX
  }

  /** A conforming instance of a record: all fields of a struct in order, or one field of a union,
      and as many bytes as the record and each field are said to have. */
  ghost predicate RecordOk(c: Codec, t: Named, r: Record, i: Instance)
    decreases i, 0
  {
    match r.kind
    case Struct =>
      && i.Fields? && IsValues(i.v) && Consistent(i.v, r.fields) && SizeAdmits(i.v, r.byteSize, |Written(i)|)
      && FieldsOk(c, t, i.v, r.fields, i.parts)
    case Union =>
      && i.Choice? && IsValues(i.v) && SizeAdmits(i.v, r.byteSize, |Written(i)|)
      && i.index < |r.fields| && FieldOk(c, t, i.v, r.fields[i.index], i.part)
  }

  ghost predicate FieldsOk(c: Codec, t: Named, v: Valuation, fs: seq<Field>, xs: seq<Instance>)
    decreases xs
  {
    |xs| == |fs| && (xs != [] ==> FieldOk(c, t, v, fs[0], xs[0]) && FieldsOk(c, t, v, fs[1..], xs[1..]))
  }

  ghost predicate FieldOk(c: Codec, t: Named, v: Valuation, f: Field, i: Instance)
    decreases i, 1
  {
    HasSize(v, f, |Written(i)|) &&
    match f.kind
    case Array =>
      && i.Items? && SizeAdmits(v, f.len, |i.items|)
      && (i.items != [] ==> RecordRef(f).Some? && RecordRef(f).value in t && RecordsOk(c, t, t[RecordRef(f).value], i.items))
    case Record =>
      RecordRef(f).Some? && RecordRef(f).value in t && RecordOk(c, t, t[RecordRef(f).value], i)
    case _ =>
      i.Leaf? && c(f, v(f.name), i.bytes)
  }

  ghost predicate RecordsOk(c: Codec, t: Named, r: Record, xs: seq<Instance>)
    decreases xs
  {
    xs != [] ==> RecordOk(c, t, r, xs[0]) && RecordsOk(c, t, r, xs[1..])
  }

  /* The minimum size */

  /** Neither integer references nor record references form a cycle. */
  ghost predicate Grounded(t: Named, d: string -> Depth, rank: string -> nat) {
    && (forall n {:trigger t[n]} | n in t :: t[n].name == n && Layered(d(n), t[n]))
    && forall n, f | n in t && f in t[n].fields && RecordRef(f).Some? && RecordRef(f).value in t :: rank(RecordRef(f).value) < rank(n)
  }

  function First(rs: seq<Interval>): int {
    if rs == [] then 0 else rs[0].lo
  }

  /** Sizes are `usize`: sums and products wrap around, as they do in a release build. */
  function Wrapped(n: int): (r: nat)
    ensures 0 <= n ==> r <= n
  {
    n % WORD_SIZE
  }

  function RecordMin(t: Named, ghost d: string -> Depth, ghost rank: string -> nat, deps: map<string, int>, r: Record): (m: nat)
    requires Grounded(t, d, rank) && r.name in t && t[r.name] == r
    decreases rank(r.name), 2, 0
  {
    match r.kind
    case Struct => Wrapped(FieldsMin(t, d, rank, deps, r, |r.fields|))
    case Union => if r.fields == [] then 0 else AlternativesMin(t, d, rank, deps, r, |r.fields|)
  }

  /** The sum over the first `k` fields of a struct. */
  function FieldsMin(t: Named, ghost d: string -> Depth, ghost rank: string -> nat, deps: map<string, int>, r: Record, k: nat): (m: nat)
    requires Grounded(t, d, rank) && r.name in t && t[r.name] == r && k <= |r.fields|
    decreases rank(r.name), 1, k
  {
    if k == 0 then 0 else FieldsMin(t, d, rank, deps, r, k - 1) + FieldMin(t, d, rank, deps, r, r.fields[k - 1])
  }

  /** The least over the first `k` fields of a union. */
  function AlternativesMin(t: Named, ghost d: string -> Depth, ghost rank: string -> nat, deps: map<string, int>, r: Record, k: nat): (m: nat)
    requires Grounded(t, d, rank) && r.name in t && t[r.name] == r && 0 < k <= |r.fields|
    decreases rank(r.name), 1, k
  {
    var last := AlternativeMin(t, d, rank, deps, r, r.fields[k - 1]);
    if k == 1 then last
    else
      var before := AlternativesMin(t, d, rank, deps, r, k - 1);
      if before < last then before else last
  }

  function AlternativeMin(t: Named, ghost d: string -> Depth, ghost rank: string -> nat, deps: map<string, int>, r: Record, f: Field): (m: nat)
    requires Grounded(t, d, rank) && r.name in t && t[r.name] == r && f in r.fields
    decreases rank(r.name), 0, 0
  {
    if RecordRef(f).None? || RecordRef(f).value !in t then 0
    else RecordMin(t, d, rank, deps, t[RecordRef(f).value])
  }

  function FieldMin(t: Named, ghost d: string -> Depth, ghost rank: string -> nat, deps: map<string, int>, r: Record, f: Field): (m: nat)
    requires Grounded(t, d, rank) && r.name in t && t[r.name] == r && f in r.fields
    decreases rank(r.name), 0, 0
  {
    match f.kind
    case Array =>
      if RecordRef(f).None? || RecordRef(f).value !in t then 0
      else
        var q := t[RecordRef(f).value];
        var each := RecordMin(t, d, rank, deps, q);
        if each == 0 then 0
        else Wrapped(First(SizeRanges(d(q.name), deps, q, Length(f))) * each)   // the length is looked up in the item record
    case Record =>
      if RecordRef(f).None? || RecordRef(f).value !in t then 0
      else RecordMin(t, d, rank, deps, t[RecordRef(f).value])
    case _ =>
      var sizes := SizeRanges(d(r.name), deps, r, ByteSize(f));
      if sizes == [] then 0 else sizes[0].lo
  }

  /* It is a lower bound */

  /** What the caller knows fits its type. */
  predicate Fits(deps: map<string, int>) {
    forall n | n in deps :: INT_MIN <= deps[n] <= INT_MAX
  }

  /** All values inside the instance are what the caller already knows. */
  ghost predicate Agrees(deps: map<string, int>, i: Instance) {
    match i
    case Leaf(_) => true
    case Items(items) => forall x | x in items :: Agrees(deps, x)
    case Fields(v, parts) => Known(v, deps) && forall x | x in parts :: Agrees(deps, x)
    case Choice(v, _, part) => Known(v, deps) && Agrees(deps, part)
  }

  /** A reference that a look-up in the record `q` does not mistake for a field of `q`. */
  predicate Foreign(deps: map<string, int>, q: Record, x: ValOrRef<int>) {
    x.Reference? ==> x.ref.name in deps || FindField(q.fields, x.ref.name).None?
  }

  predicate ForeignSize(deps: map<string, int>, q: Record, size: SizeDescriptor) {
    match size
    case Single(x) => Foreign(deps, q, x)
    case Range(start, end) => Foreign(deps, q, start) && Foreign(deps, q, end)
  }

  /** A length that a look-up in the item record `q` does not mistake for a field of `q`, or that
      is found to be no larger there than in the array's own record `r`. */
  ghost predicate LengthFits(dr: Depth, dq: Depth, deps: map<string, int>, r: Record, q: Record, len: Option<SizeDescriptor>)
    requires Layered(dr, r) && Layered(dq, q)
  {
    || (len.Some? ==> ForeignSize(deps, q, len.value))
    || First(SizeRanges(dq, deps, q, len)) <= First(SizeRanges(dr, deps, r, len))
  }

  ghost predicate LengthsFit(t: Named, d: string -> Depth, rank: string -> nat, deps: map<string, int>)
    requires Grounded(t, d, rank)
  {
    forall n, f | n in t && f in t[n].fields && f.kind.Array? && RecordRef(f).Some? && RecordRef(f).value in t ::
      LengthFits(d(n), d(RecordRef(f).value), deps, t[n], t[RecordRef(f).value], f.len)
  }

  ghost predicate Clear(t: Named, d: string -> Depth, deps: map<string, int>) {
    forall n {:trigger t[n]} | n in t ::
      t[n].name == n && Layered(d(n), t[n]) && AllClosed(d(n), deps, t[n])
  }

  /** What is not known is taken to be 0. */
  function OrZero(deps: map<string, int>): Valuation {
    n => Some(if n in deps then deps[n] else 0)
  }

  /** The array can have no items, and its union no bytes. */
  predicate MayBeEmpty(deps: map<string, int>, r: Record, f: Field) {
    && f.kind.Array? && SizeAdmits(OrZero(deps), f.len, 0)
    && SizeAdmits(OrZero(deps), f.byteSize, 0) && SizeAdmits(OrZero(deps), r.byteSize, 0)
  }

  lemma {:induction false} ZeroIsAdmitted(v: Valuation, deps: map<string, int>, size: Option<SizeDescriptor>)
    requires Known(v, deps) && SizeAdmits(v, size, 0)
    ensures SizeAdmits(OrZero(deps), size, 0)
  {
  }

  /** In unions with a positive minimum, no alternative is an array that may be empty. */
  ghost predicate NoEmptyAlternative(t: Named, d: string -> Depth, rank: string -> nat, deps: map<string, int>)
    requires Grounded(t, d, rank)
  {
    forall n, f | n in t && t[n].kind.Union? && f in t[n].fields && RecordRef(f).Some? && RecordRef(f).value in t && MayBeEmpty(deps, t[n], f) ::
      RecordMin(t, d, rank, deps, t[n]) == 0
  }

  lemma {:induction false} SizeBound(d: Depth, deps: map<string, int>, r: Record, v: Valuation, size: Option<SizeDescriptor>, n: nat)
    requires Layered(d, r) && AllClosed(d, deps, r)
    requires Consistent(v, r.fields) && Known(v, deps) && SizeAdmits(v, size, n)
    ensures First(SizeRanges(d, deps, r, size)) <= n
  {
    if size.Some? {
      var num, limit := ClampedSize(size.value), TopOf(d, size.value);
      var x := if n > INT_MAX then INT_MAX else n;
      var ranges := NumRanges(d, deps, r, num, limit);
      if num.Range? || ValRanges(d, deps, r, num.value, limit) != [] {
        NumRangesCover(d, deps, r, v, num, limit, x);
        NonNegativesStay(ranges, x);
        FirstIsLeast(SizeRanges(d, deps, r, size), x);
      }
    }
  }

  lemma {:induction false} ForeignRanges(d: Depth, deps: map<string, int>, q: Record, v: Valuation, x: ValOrRef<int>, limit: nat)
    requires Layered(d, q) && Below(d, q, x, limit) && Known(v, deps) && Foreign(deps, q, x)
    requires Value(v, x).Some?
    ensures ValRanges(d, deps, q, x, limit) == [] || ValRanges(d, deps, q, x, limit) == [Interval(Value(v, x).value, Value(v, x).value)]
  {
  }

  /** The length of an array, looked up in its item record `q` instead of its own. */
  lemma {:induction false} LengthBound(d: Depth, deps: map<string, int>, q: Record, v: Valuation, size: Option<SizeDescriptor>, n: nat)
    requires Layered(d, q) && Known(v, deps) && (size.Some? ==> ForeignSize(deps, q, size.value)) && SizeAdmits(v, size, n)
    ensures First(SizeRanges(d, deps, q, size)) <= n
  {
    if size.Some? {
      var num, limit := ClampedSize(size.value), TopOf(d, size.value);
      var x := if n > INT_MAX then INT_MAX else n;
      var ranges := NumRanges(d, deps, q, num, limit);
      match num {
        case Single(y) => ForeignRanges(d, deps, q, v, y, limit);
        case Range(start, end) =>
          ForeignRanges(d, deps, q, v, start, limit);
          ForeignRanges(d, deps, q, v, end, limit);
      }
      if ranges != [] {
        assert Inside(x, ranges[0]);
        NonNegativesStay(ranges, x);
        FirstIsLeast(SizeRanges(d, deps, q, size), x);
      }
    }
  }

  lemma {:induction false} ArrayLengthBound(dr: Depth, dq: Depth, deps: map<string, int>, r: Record, q: Record, v: Valuation, len: Option<SizeDescriptor>, n: nat)
    requires Layered(dr, r) && Layered(dq, q) && LengthFits(dr, dq, deps, r, q, len) && AllClosed(dr, deps, r)
    requires Consistent(v, r.fields) && Known(v, deps) && SizeAdmits(v, len, n)
    ensures First(SizeRanges(dq, deps, q, len)) <= n
  {
    if len.Some? ==> ForeignSize(deps, q, len.value) {
      LengthBound(dq, deps, q, v, len, n);
    } else {
      SizeBound(dr, deps, r, v, len, n);
    }
  }

  lemma {:induction false} ProductBound(len: int, each: nat, n: nat, total: nat)
    requires 0 <= len <= n && n * each <= total
    ensures Wrapped(len * each) <= total
  {
    assert len * each <= n * each;
  }

  lemma {:induction false} RecordBound(c: Codec, t: Named, d: string -> Depth, rank: string -> nat, deps: map<string, int>, r: Record, i: Instance)
    requires Grounded(t, d, rank) && Clear(t, d, deps) && LengthsFit(t, d, rank, deps) && NoEmptyAlternative(t, d, rank, deps)
    requires r.name in t && t[r.name] == r && RecordOk(c, t, r, i) && Agrees(deps, i)
    ensures RecordMin(t, d, rank, deps, r) <= |Written(i)|
    decreases i, 0
  {
    match r.kind
    case Struct =>
      assert r.fields[0..] == r.fields;
      FieldsBound(c, t, d, rank, deps, r, i.v, 0, i.parts);
    case Union =>
      AlternativeBound(c, t, d, rank, deps, r, i);
      LeastAlternative(t, d, rank, deps, r, |r.fields|, i.index);
  }

  /** From field `k` of a struct on. */
  lemma {:induction false} FieldsBound(c: Codec, t: Named, d: string -> Depth, rank: string -> nat, deps: map<string, int>, r: Record, v: Valuation, k: nat, xs: seq<Instance>)
    requires Grounded(t, d, rank) && Clear(t, d, deps) && LengthsFit(t, d, rank, deps) && NoEmptyAlternative(t, d, rank, deps)
    requires r.name in t && t[r.name] == r && Consistent(v, r.fields) && Known(v, deps)
    requires k <= |r.fields| && FieldsOk(c, t, v, r.fields[k..], xs) && forall x | x in xs :: Agrees(deps, x)
    ensures FieldsMin(t, d, rank, deps, r, |r.fields|) <= FieldsMin(t, d, rank, deps, r, k) + |AllWritten(xs)|
    decreases xs
  {
    if xs != [] {
      FieldBound(c, t, d, rank, deps, r, v, r.fields[k], xs[0]);
      assert r.fields[k..][1..] == r.fields[k + 1..];
      FieldsBound(c, t, d, rank, deps, r, v, k + 1, xs[1..]);
    }
  }

  lemma {:induction false} FieldBound(c: Codec, t: Named, d: string -> Depth, rank: string -> nat, deps: map<string, int>, r: Record, v: Valuation, f: Field, i: Instance)
    requires Grounded(t, d, rank) && Clear(t, d, deps) && LengthsFit(t, d, rank, deps) && NoEmptyAlternative(t, d, rank, deps)
    requires r.name in t && t[r.name] == r && Consistent(v, r.fields) && Known(v, deps)
    requires f in r.fields && FieldOk(c, t, v, f, i) && Agrees(deps, i)
    ensures FieldMin(t, d, rank, deps, r, f) <= |Written(i)|
    decreases i, 1
  {
    match f.kind
    case Array =>
      if RecordRef(f).None? || RecordRef(f).value !in t { return; }
      var q := t[RecordRef(f).value];
      var len := First(SizeRanges(d(q.name), deps, q, f.len));
      ArrayLengthBound(d(r.name), d(q.name), deps, r, q, v, f.len, |i.items|);
      RecordsBound(c, t, d, rank, deps, q, i.items);
      ProductBound(len, RecordMin(t, d, rank, deps, q), |i.items|, |Written(i)|);
    case Record =>
      RecordBound(c, t, d, rank, deps, t[RecordRef(f).value], i);
    case _ =>
      SizeBound(d(r.name), deps, r, v, ByteSize(f), |i.bytes|);
  }

  lemma {:induction false} RecordsBound(c: Codec, t: Named, d: string -> Depth, rank: string -> nat, deps: map<string, int>, q: Record, xs: seq<Instance>)
    requires Grounded(t, d, rank) && Clear(t, d, deps) && LengthsFit(t, d, rank, deps) && NoEmptyAlternative(t, d, rank, deps)
    requires q.name in t && t[q.name] == q && RecordsOk(c, t, q, xs) && forall x | x in xs :: Agrees(deps, x)
    ensures |xs| * RecordMin(t, d, rank, deps, q) <= |AllWritten(xs)|
    decreases xs
  {
    if xs != [] {
      RecordBound(c, t, d, rank, deps, q, xs[0]);
      RecordsBound(c, t, d, rank, deps, q, xs[1..]);
      OneMoreTime(|xs|, RecordMin(t, d, rank, deps, q));
    }
  }

  /** What is chosen in a union has at least its share, or the union has no minimum. */
  lemma {:induction false} AlternativeBound(c: Codec, t: Named, d: string -> Depth, rank: string -> nat, deps: map<string, int>, r: Record, i: Instance)
    requires Grounded(t, d, rank) && Clear(t, d, deps) && LengthsFit(t, d, rank, deps) && NoEmptyAlternative(t, d, rank, deps)
    requires r.name in t && t[r.name] == r && r.kind.Union? && RecordOk(c, t, r, i) && Agrees(deps, i)
    ensures RecordMin(t, d, rank, deps, r) == 0 || AlternativeMin(t, d, rank, deps, r, r.fields[i.index]) <= |Written(i)|
    decreases i, 0, 0
  {
    var f := r.fields[i.index];
    if RecordRef(f).Some? && RecordRef(f).value in t {
      var q := t[RecordRef(f).value];
      if f.kind.Record? {
        RecordBound(c, t, d, rank, deps, q, i.part);
      } else if |i.part.items| == 0 {
        assert Written(i) == Written(i.part) == AllWritten([]);
        ZeroIsAdmitted(i.v, deps, f.len);
        ZeroIsAdmitted(i.v, deps, f.byteSize);
        ZeroIsAdmitted(i.v, deps, r.byteSize);
      } else {
        RecordsBound(c, t, d, rank, deps, q, i.part.items);
        OneOfMany(|i.part.items|, RecordMin(t, d, rank, deps, q));
      }
    }
  }

  lemma {:induction false} OneOfMany(n: nat, each: nat)
    requires n > 0
    ensures each <= n * each
  {
  }

  lemma {:induction false} LeastAlternative(t: Named, d: string -> Depth, rank: string -> nat, deps: map<string, int>, r: Record, k: nat, j: nat)
    requires Grounded(t, d, rank) && r.name in t && t[r.name] == r && j < k <= |r.fields|
    ensures AlternativesMin(t, d, rank, deps, r, k) <= AlternativeMin(t, d, rank, deps, r, r.fields[j])
  {
    if j < k - 1 { LeastAlternative(t, d, rank, deps, r, k - 1, j); }
  }

  /** No conforming instance of any record is shorter than the minimum computed for the record. */
  ghost predicate MinimumHolds(c: Codec, t: Named, d: string -> Depth, rank: string -> nat, deps: map<string, int>)
    requires Grounded(t, d, rank)
  {
    forall n, i | n in t && RecordOk(c, t, t[n], i) && Agrees(deps, i) :: RecordMin(t, d, rank, deps, t[n]) <= |Written(i)|
  }

  /** The minimum is a true lower bound exactly if no union with a positive minimum offers an
      array that may be empty: for an array the union's minimum counts one item. */
  lemma {:induction false} MinimumIsLowerBound(c: Codec, t: Named, d: string -> Depth, rank: string -> nat, deps: map<string, int>)
    requires Grounded(t, d, rank) && Fits(deps) && Clear(t, d, deps) && LengthsFit(t, d, rank, deps)
    ensures MinimumHolds(c, t, d, rank, deps) <==> NoEmptyAlternative(t, d, rank, deps)
  {
    if NoEmptyAlternative(t, d, rank, deps) {
      forall n, i | n in t && RecordOk(c, t, t[n], i) && Agrees(deps, i)
        ensures RecordMin(t, d, rank, deps, t[n]) <= |Written(i)|
      {
        RecordBound(c, t, d, rank, deps, t[n], i);
      }
    }
    forall n, f | n in t && t[n].kind.Union? && f in t[n].fields && RecordRef(f).Some? && RecordRef(f).value in t && MayBeEmpty(deps, t[n], f)
      ensures exists i :: RecordOk(c, t, t[n], i) && Agrees(deps, i) && |Written(i)| == 0
    {
      var j :| 0 <= j < |t[n].fields| && t[n].fields[j] == f;
      var i := Choice(OrZero(deps), j, Items([]));
      assert Written(Items([])) == AllWritten([]) == [];
      assert Written(i) == Written(i.part);
      assert Agrees(deps, i) && Written(i) == [] && FieldOk(c, t, i.v, f, i.part);
    }
  }

  /** What the validator demands: unions consist of record fields. */
  predicate UnionsOfRecords(t: Named) {
    forall n, f | n in t && t[n].kind.Union? && f in t[n].fields :: f.kind.Record?
  }

  /** If unions are as validated, the minimum is a lower bound for all schemas whose value lists the
      ranges speak for and whose array lengths are found. */
  lemma {:induction false} ValidMinimumIsLowerBound(c: Codec, t: Named, d: string -> Depth, rank: string -> nat, deps: map<string, int>)
    requires Grounded(t, d, rank) && Fits(deps) && Clear(t, d, deps) && LengthsFit(t, d, rank, deps) && UnionsOfRecords(t)
    ensures MinimumHolds(c, t, d, rank, deps)
  {
    MinimumIsLowerBound(c, t, d, rank, deps);
  }
}
