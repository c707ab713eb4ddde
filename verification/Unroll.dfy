/** Arrays of fixed length written out field by field (testlang/src/postprocess/unroll.rs). */
module Unroll {
  import opened Options
  import opened Schema
  import opened IntRanges
  import opened Layout
  import opened Regrouping

  function Digits(n: nat): string {
    if n < 10 then [("0123456789")[n]] else Digits(n / 10) + [("0123456789")[n % 10]]
  }

  function CopyName(name: string, i: nat): string {
    name + "_unrolled_" + Digits(i)
  }

  /** An array of records with a literal length and no byte size. */
  predicate Unrollable(f: Field) {
    && f.kind.Array? && f.byteSize.None? && RecordRef(f).Some?
    && f.len.Some? && f.len.value.Single? && f.len.value.value.Val? && 0 <= f.len.value.value.value
  }

  function Count(f: Field): nat
    requires Unrollable(f)
  {
    f.len.value.value.value
  }

  /** The `i`-th item as a field of its own. */
  function Copy(f: Field, i: nat): Field
    requires Unrollable(f)
  {
    Field(CopyName(f.name, i), FieldKind.Record, None, None, None, Some(Ref(ToRecord, RecordRef(f).value)), None, None, None, None)
  }

  function Copies(f: Field, n: nat): (fs: seq<Field>)
    requires Unrollable(f)
    ensures |fs| == n
  {
    seq(n, i requires 0 <= i < n => Copy(f, i))
  }

  function UnrolledField(f: Field): seq<Field> {
    if Unrollable(f) then Copies(f, Count(f)) else [f]
  }

  method UnrollField(f: Field) returns (fs: seq<Field>)
    ensures fs == UnrolledField(f)
  {
    if !f.kind.Array? || f.byteSize.Some? {
      return [f];
    }
    if f.len.None? || !f.len.value.Single? || !f.len.value.value.Val? || f.len.value.value.value < 0 {
      return [f];
    }
    var len := f.len.value.value.value;
    if RecordRef(f).None? {
      return [f];
    }
    fs := [];
    for i := 0 to len
      invariant fs == Copies(f, i)
    {
      fs := fs + [Copy(f, i)];
    }
  }

  function UnrolledFields(fs: seq<Field>): seq<Field> {
    if fs == [] then [] else UnrolledField(fs[0]) + UnrolledFields(fs[1..])
  }

  function UnrolledRecord(r: Record): Record {
    if r.kind.Struct? then r.(fields := UnrolledFields(r.fields)) else r
  }

  function Unrolled(t: Named): Named {
    map n | n in t :: UnrolledRecord(t[n])
  }

  lemma {:induction false} UnrolledConcat(a: seq<Field>, b: seq<Field>)
    ensures UnrolledFields(a + b) == UnrolledFields(a) + UnrolledFields(b)
  {
    var all := a + b;
    if a == [] {
      assert all == b;
    } else {
      UnrolledConcat(a[1..], b);
      assert all[0] == a[0] && all[1..] == a[1..] + b;
      Associative(UnrolledField(a[0]), UnrolledFields(a[1..]), UnrolledFields(b));
    }
  }

  /** A field of the unrolled record is an old one that stays, or a copy. */
  lemma {:induction false} UnrolledAre(fs: seq<Field>, g: Field)
    ensures g in UnrolledFields(fs) <==>
            (g in fs && !Unrollable(g)) || exists f, i: nat | f in fs && Unrollable(f) && i < Count(f) :: g == Copy(f, i)
  {
    if fs != [] {
      UnrolledAre(fs[1..], g);
      var f := fs[0];
      assert fs == [f] + fs[1..];
      if Unrollable(f) {
        assert g in UnrolledField(f) <==> exists i: nat | i < Count(f) :: g == Copy(f, i) by {
          if g in UnrolledField(f) {
            var i :| 0 <= i < Count(f) && Copies(f, Count(f))[i] == g;
          }
          forall i: nat | i < Count(f) && g == Copy(f, i) ensures g in UnrolledField(f) {
            assert Copies(f, Count(f))[i] == g;
          }
        }
      }
    }
  }

  /** Unrolling twice is unrolling once. */
  lemma {:induction false} UnrollIsIdempotent(fs: seq<Field>)
    ensures UnrolledFields(UnrolledFields(fs)) == UnrolledFields(fs)
  {
    forall g | g in UnrolledFields(fs)
      ensures !Unrollable(g)
    {
      UnrolledAre(fs, g);
    }
    NothingToUnroll(UnrolledFields(fs));
  }

  lemma {:induction false} NothingToUnroll(fs: seq<Field>)
    requires forall f | f in fs :: !Unrollable(f)
    ensures UnrolledFields(fs) == fs
  {
    if fs != [] { NothingToUnroll(fs[1..]); }
  }

  lemma {:induction false} UnrollTwice(t: Named)
    ensures Unrolled(Unrolled(t)) == Unrolled(t)
  {
    forall n | n in t
      ensures Unrolled(Unrolled(t))[n] == Unrolled(t)[n]
    {
      UnrollIsIdempotent(t[n].fields);
    }
  }

  /* The layouts stay */

  lemma {:induction false} ConsistentStays(v: Valuation, fs: seq<Field>)
    ensures Consistent(v, UnrolledFields(fs)) <==> Consistent(v, fs)
  {
    forall f: Field | IsLeaf(f)
      ensures f in UnrolledFields(fs) <==> f in fs
    {
      UnrolledAre(fs, f);
    }
  }

  lemma {:induction false} BytesConcat(xs: seq<Instance>, ys: seq<Instance>)
    ensures AllWritten(xs + ys) == AllWritten(xs) + AllWritten(ys)
  {
    var all := xs + ys;
    if xs == [] {
      assert all == ys;
    } else {
      BytesConcat(xs[1..], ys);
      assert all[0] == xs[0] && all[1..] == xs[1..] + ys;
      Associative(Written(xs[0]), AllWritten(xs[1..]), AllWritten(ys));
    }
  }

  lemma {:induction false} FieldsOkConcat(c: Codec, t: Named, v: Valuation, fs: seq<Field>, gs: seq<Field>, xs: seq<Instance>, ys: seq<Instance>)
    requires |fs| == |xs|
    ensures FieldsOk(c, t, v, fs + gs, xs + ys) <==> FieldsOk(c, t, v, fs, xs) && FieldsOk(c, t, v, gs, ys)
  {
    if xs == [] {
      assert fs + gs == gs && xs + ys == ys;
    } else {
      FieldsOkConcat(c, t, v, fs[1..], gs, xs[1..], ys);
      assert (fs + gs)[1..] == fs[1..] + gs && (xs + ys)[1..] == xs[1..] + ys;
    }
  }

  /** Copies of an array's field hold what the array's items hold. */
  lemma {:induction false} CopiesOk(c: Codec, t: Named, v: Valuation, f: Field, from: nat, xs: seq<Instance>)
    requires Unrollable(f) && from + |xs| == Count(f)
    ensures FieldsOk(c, t, v, Copies(f, Count(f))[from..], xs) <==>
            (xs != [] ==> RecordRef(f).value in t && RecordsOk(c, t, t[RecordRef(f).value], xs))
    decreases xs
  {
    var fs := Copies(f, Count(f))[from..];
    if xs != [] {
      assert fs[0] == Copy(f, from) && fs[1..] == Copies(f, Count(f))[from + 1..];
      CopiesOk(c, t, v, f, from + 1, xs[1..]);
    }
  }

  /** An instance of the schema as one of the unrolled schema, with the same bytes. */
  lemma {:induction false} RollOut(c: Codec, t: Named, r: Record, i: Instance) returns (j: Instance)
    requires RecordOk(c, t, r, i)
    ensures RecordOk(c, Unrolled(t), UnrolledRecord(r), j) && Written(j) == Written(i)
    decreases i, 0
  {
    match r.kind
    case Struct =>
      var ys := RollOutFields(c, t, i.v, r.fields, i.parts);
      ConsistentStays(i.v, r.fields);
      j := Fields(i.v, ys);
    case Union =>
      var y := RollOutField(c, t, i.v, r.fields[i.index], i.part);
      j := Choice(i.v, i.index, y);
  }

  lemma {:induction false} RollOutFields(c: Codec, t: Named, v: Valuation, fs: seq<Field>, xs: seq<Instance>) returns (ys: seq<Instance>)
    requires FieldsOk(c, t, v, fs, xs)
    ensures FieldsOk(c, Unrolled(t), v, UnrolledFields(fs), ys) && AllWritten(ys) == AllWritten(xs)
    decreases xs
  {
    ys := [];
    if xs != [] {
      var y := RollOutField(c, t, v, fs[0], xs[0]);
      var rest := RollOutFields(c, t, v, fs[1..], xs[1..]);
      var head := if Unrollable(fs[0]) then y.items else [y];
      if Unrollable(fs[0]) {
        CopiesOk(c, Unrolled(t), v, fs[0], 0, y.items);
        assert UnrolledField(fs[0]) == Copies(fs[0], Count(fs[0]))[0..];
      }
      FieldsOkConcat(c, Unrolled(t), v, UnrolledField(fs[0]), UnrolledFields(fs[1..]), head, rest);
      BytesConcat(head, rest);
      ys := head + rest;
    }
  }

  lemma {:induction false} RollOutField(c: Codec, t: Named, v: Valuation, f: Field, i: Instance) returns (j: Instance)
    requires FieldOk(c, t, v, f, i)
    ensures FieldOk(c, Unrolled(t), v, f, j) && Written(j) == Written(i)
    decreases i, 1
  {
    match f.kind
    case Array =>
      var ys := [];
      if i.items != [] { ys := RollOutRecords(c, t, t[RecordRef(f).value], i.items); }
      j := Items(ys);
    case Record =>
      j := RollOut(c, t, t[RecordRef(f).value], i);
    case _ =>
      j := i;
  }

  lemma {:induction false} RollOutRecords(c: Codec, t: Named, r: Record, xs: seq<Instance>) returns (ys: seq<Instance>)
    requires RecordsOk(c, t, r, xs)
    ensures RecordsOk(c, Unrolled(t), UnrolledRecord(r), ys) && AllWritten(ys) == AllWritten(xs) && |ys| == |xs|
    decreases xs
  {
    ys := [];
    if xs != [] {
      var y := RollOut(c, t, r, xs[0]);
      var rest := RollOutRecords(c, t, r, xs[1..]);
      ys := [y] + rest;
    }
  }

  /** And back. */
  lemma {:induction false} RollUp(c: Codec, t: Named, r: Record, i: Instance) returns (j: Instance)
    requires RecordOk(c, Unrolled(t), UnrolledRecord(r), i)
    ensures RecordOk(c, t, r, j) && Written(j) == Written(i)
    decreases i, 0
  {
    match r.kind
    case Struct =>
      var ys := RollUpFields(c, t, i.v, r.fields, i.parts);
      ConsistentStays(i.v, r.fields);
      j := Fields(i.v, ys);
    case Union =>
      var y := RollUpField(c, t, i.v, r.fields[i.index], i.part);
      j := Choice(i.v, i.index, y);
  }

  lemma {:induction false} RollUpFields(c: Codec, t: Named, v: Valuation, fs: seq<Field>, xs: seq<Instance>) returns (ys: seq<Instance>)
    requires FieldsOk(c, Unrolled(t), v, UnrolledFields(fs), xs)
    ensures FieldsOk(c, t, v, fs, ys) && AllWritten(ys) == AllWritten(xs)
    decreases xs, 3, |fs|
  {
    ys := [];
    if fs != [] {
      var f, k := fs[0], |UnrolledField(fs[0])|;
      assert xs == xs[..k] + xs[k..];
      FieldsOkConcat(c, Unrolled(t), v, UnrolledField(f), UnrolledFields(fs[1..]), xs[..k], xs[k..]);
      BytesConcat(xs[..k], xs[k..]);
      var y := RollUpHead(c, t, v, f, xs[..k], xs);
      var rest := RollUpFields(c, t, v, fs[1..], xs[k..]);
      ys := [y] + rest;
    }
  }

  /** What one field became, at the front of `all`. */
  lemma {:induction false} RollUpHead(c: Codec, t: Named, v: Valuation, f: Field, head: seq<Instance>, all: seq<Instance>) returns (y: Instance)
    requires FieldsOk(c, Unrolled(t), v, UnrolledField(f), head) && |head| <= |all| && head == all[..|head|]
    ensures FieldOk(c, t, v, f, y) && Written(y) == AllWritten(head)
    decreases all, 2
  {
    if Unrollable(f) {
      CopiesOk(c, Unrolled(t), v, f, 0, head);
      assert UnrolledField(f) == Copies(f, Count(f))[0..];
      var items := [];
      if head != [] { items := RollUpRecords(c, t, t[RecordRef(f).value], head, all); }
      y := Items(items);
    } else {
      assert head == [all[0]] && AllWritten(head) == Written(head[0]) + AllWritten([]);
      y := RollUpField(c, t, v, f, head[0]);
    }
  }

  lemma {:induction false} RollUpField(c: Codec, t: Named, v: Valuation, f: Field, i: Instance) returns (j: Instance)
    requires FieldOk(c, Unrolled(t), v, f, i)
    ensures FieldOk(c, t, v, f, j) && Written(j) == Written(i)
    decreases i, 1
  {
    match f.kind
    case Array =>
      var ys := [];
      if i.items != [] { ys := RollUpRecords(c, t, t[RecordRef(f).value], i.items, i.items); }
      j := Items(ys);
    case Record =>
      j := RollUp(c, t, t[RecordRef(f).value], i);
    case _ =>
      j := i;
  }

  /** Of `all`, the first instances. */
  lemma {:induction false} RollUpRecords(c: Codec, t: Named, r: Record, xs: seq<Instance>, all: seq<Instance>) returns (ys: seq<Instance>)
    requires RecordsOk(c, Unrolled(t), UnrolledRecord(r), xs) && |xs| <= |all| && xs == all[..|xs|]
    ensures RecordsOk(c, t, r, ys) && AllWritten(ys) == AllWritten(xs) && |ys| == |xs|
    decreases all, 1
  {
    ys := [];
    if xs != [] {
      assert xs[0] == all[0] && xs[1..] == all[1..][..|xs| - 1];
      var y := RollUp(c, t, r, xs[0]);
      var rest := RollUpRecords(c, t, r, xs[1..], all[1..]);
      ys := [y] + rest;
    }
  }

  ghost predicate HasLayout(c: Codec, t: Named, r: Record, bytes: seq<int>) {
    exists i :: RecordOk(c, t, r, i) && Written(i) == bytes
  }

  /** Unrolling changes the byte layouts of no record. */
  lemma {:induction false} UnrollKeepsLayouts(c: Codec, t: Named, n: string, bytes: seq<int>)
    requires n in t
    ensures HasLayout(c, Unrolled(t), Unrolled(t)[n], bytes) <==> HasLayout(c, t, t[n], bytes)
  {
    if HasLayout(c, t, t[n], bytes) {
      var i :| RecordOk(c, t, t[n], i) && Written(i) == bytes;
      var j := RollOut(c, t, t[n], i);
      assert RecordOk(c, Unrolled(t), Unrolled(t)[n], j);
    }
    if HasLayout(c, Unrolled(t), Unrolled(t)[n], bytes) {
      var i :| RecordOk(c, Unrolled(t), Unrolled(t)[n], i) && Written(i) == bytes;
      var j := RollUp(c, t, t[n], i);
    }
  }

  /* What unrolling does to arrays */

  /** An array of `n` records named `item`, written out, without a byte size. */
  predicate IsFixedArray(f: Field, item: string, n: nat) {
    f.kind.Array? && f.byteSize.None? && f.items == Some(Ref(ToRecord, item)) && f.len == Some(Single(Val(n as int)))
  }

  lemma {:induction false} FixedArraysAreUnrollable(f: Field)
    ensures Unrollable(f) <==> exists item, n: nat :: IsFixedArray(f, item, n)
  {
    if Unrollable(f) {
      assert IsFixedArray(f, RecordRef(f).value, Count(f));
    }
  }

  /** Such an array becomes `n` fields with one record each, under different names; everything else
      stays as it is. */
  lemma {:induction false} FixedArrayIsWrittenOut(f: Field, item: string, n: nat)
    requires IsFixedArray(f, item, n)
    ensures |UnrolledField(f)| == n
    ensures forall i | 0 <= i < n ::
      var g := UnrolledField(f)[i];
      g.kind == FieldKind.Record && g.items == Some(Ref(ToRecord, item)) && g.len.None? && g.byteSize.None? && g.possibleValues.None?
    ensures DistinctFields(UnrolledField(f))
  {
    forall i, j | 0 <= i < j < n
      ensures UnrolledField(f)[i].name != UnrolledField(f)[j].name
    {
      CopyNamesDiffer(f.name, i, j);
    }
  }

  lemma {:induction false} OtherFieldsStay(f: Field)
    requires forall item, n: nat :: !IsFixedArray(f, item, n)
    ensures UnrolledField(f) == [f]
  {
    FixedArraysAreUnrollable(f);
  }

  /** No array of fixed length is left in a struct. */
  lemma {:induction false} NoFixedArrayIsLeft(r: Record, g: Field, item: string, n: nat)
    requires r.kind.Struct? && g in UnrolledRecord(r).fields
    ensures !IsFixedArray(g, item, n)
  {
    UnrolledAre(r.fields, g);
    FixedArraysAreUnrollable(g);
  }

  lemma {:induction false} DigitsDiffer(i: nat, j: nat)
    requires Digits(i) == Digits(j)
    ensures i == j
    decreases i + j
  {
    var s, t := Digits(i), Digits(j);
    LastDigit(i);
    LastDigit(j);
    assert s[|s| - 1] == t[|t| - 1];
    if i >= 10 && j >= 10 {
      assert Digits(i / 10) == s[..|s| - 1] == t[..|t| - 1] == Digits(j / 10);
      DigitsDiffer(i / 10, j / 10);
    }
  }

  lemma {:induction false} LastDigit(i: nat)
    ensures Digits(i) != [] && Digits(i)[|Digits(i)| - 1] == ("0123456789")[i % 10]
    ensures (i < 10 <==> |Digits(i)| == 1) && (i >= 10 ==> Digits(i / 10) == Digits(i)[..|Digits(i)| - 1])
    ensures i == 10 * (i / 10) + i % 10
  {
    if i >= 10 { assert Digits(i) == Digits(i / 10) + [("0123456789")[i % 10]]; }
  }

  lemma {:induction false} CopyNamesDiffer(name: string, i: nat, j: nat)
    ensures CopyName(name, i) == CopyName(name, j) ==> i == j
  {
    var front := name + "_unrolled_";
    if CopyName(name, i) == CopyName(name, j) {
      assert CopyName(name, i)[|front|..] == Digits(i);
      assert CopyName(name, j)[|front|..] == Digits(j);
      DigitsDiffer(i, j);
    }
  }

  /** The eleventh copy of `xs`. */
  lemma {:induction false} EleventhCopy()
    ensures CopyName("xs", 10) == "xs_unrolled_10"
  {
    assert Digits(10) == Digits(1) + ['0'] == "10";
  }
}
