/** Schemas of input formats (testlang/src/schema.rs): records, which are structs or unions of
    fields, whose sizes, values and items may refer to other fields and records. */
module Schema {
  import opened Options

  /** Machine words, `u64` in the program. */
  datatype Word = Word(bits: int)

  const WORD_SIZE: int := 0x1_0000_0000_0000_0000

  /** The cast of an `i64` or `usize` to `u64`. */
  function AsWord(v: int): (w: Word)
    ensures 0 <= w.bits < WORD_SIZE
    ensures 0 <= v < WORD_SIZE ==> w.bits == v
    ensures -WORD_SIZE <= v < 0 ==> w.bits == v + WORD_SIZE
  {
    Word(v % WORD_SIZE)
  }

  datatype RefKind = ToField | ToRecord

  datatype Ref = Ref(kind: RefKind, name: string)

  datatype ValOrRef<T> = Val(value: T) | Reference(ref: Ref)

  datatype NumValue<T> = Single(value: ValOrRef<T>) | Range(start: ValOrRef<T>, end: ValOrRef<T>)

  type SizeDescriptor = NumValue<int>

  /** A floating-point constant: its bit pattern, and the `u64` a cast turns it into. */
  datatype Float = Float(bits: Word, asInteger: Word)

  /** Strings inside values are kept as the bytes of their UTF-8 form. */
  datatype FieldValue =
    | BytesValue(bytes: ValOrRef<seq<int>>)
    | IntValue(num: NumValue<int>)
    | FloatValue(float: NumValue<Float>)
    | StringValue(text: ValOrRef<seq<int>>)

  datatype FieldKind = Int | Float | Bytes | String | Array | Record | Custom(name: string)

  datatype Terminator = ByteSequence(bytes: seq<int>) | CharSequence(utf8: seq<int>)

  datatype StringFormat = BinInt | DecInt | HexInt | OctInt

  datatype Endianness = Little | Big

  datatype FdpMethod = Llvm(index: nat) | Jazzer(index: nat)

  datatype FdpArg = IntArg(num: Word) | FloatArg(float: Float) | RefArg(ref: Ref)

  datatype FdpCall = FdpCall(api: FdpMethod, typeSize: Option<nat>, args: seq<FdpArg>)

  datatype Field = Field(
    name: string,
    kind: FieldKind,
    len: Option<SizeDescriptor>,
    byteSize: Option<SizeDescriptor>,
    possibleValues: Option<seq<FieldValue>>,
    items: Option<Ref>,
    terminator: Option<Terminator>,
    stringFormat: Option<StringFormat>,
    endianness: Option<Endianness>,
    fdpCall: Option<FdpCall>)

  datatype RecordKind = Struct | Union

  datatype Record = Record(name: string, kind: RecordKind, byteSize: Option<SizeDescriptor>, fields: seq<Field>)

  datatype TestLang = TestLang(defaultEndian: Endianness, records: seq<Record>)

  /** The first field of that name, as `iter().find` returns it. */
  function FindField(fields: seq<Field>, name: string): (r: Option<Field>)
    ensures r.Some? ==> r.value in fields && r.value.name == name
    ensures r.None? ==> forall f | f in fields :: f.name != name
  {
    if fields == [] then None
    else if fields[0].name == name then Some(fields[0])
    else FindField(fields[1..], name)
  }

  predicate DistinctFields(fields: seq<Field>) {
    forall i, j | 0 <= i < j < |fields| :: fields[i].name != fields[j].name
  }

  lemma {:induction false} FindsEachField(fields: seq<Field>, i: nat)
    requires i < |fields| && DistinctFields(fields)
    ensures FindField(fields, fields[i].name) == Some(fields[i])
  {
    if i > 0 {
      assert fields[0].name != fields[i].name;
      FindsEachField(fields[1..], i - 1);
    }
  }

  /** Records by name; of two with one name the later stays, as collecting into a `HashMap` does. */
  function ByName(records: seq<Record>): (m: map<string, Record>)
    ensures forall n | n in m :: m[n].name == n && m[n] in records
    ensures forall r | r in records :: r.name in m
  {
    if records == [] then map[]
    else
      var last := records[|records| - 1];
      ByName(records[..|records| - 1])[last.name := last]
  }

  predicate DistinctRecords(records: seq<Record>) {
    forall i, j | 0 <= i < j < |records| :: records[i].name != records[j].name
  }

  lemma {:induction false} ByNameFinds(records: seq<Record>, i: nat)
    requires i < |records| && DistinctRecords(records)
    ensures ByName(records)[records[i].name] == records[i]
  {
    if i < |records| - 1 {
      assert records[..|records| - 1][i] == records[i];
      ByNameFinds(records[..|records| - 1], i);
    }
  }
}
