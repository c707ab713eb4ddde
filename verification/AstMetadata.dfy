/** What is recorded about a tree while its nodes are numbered (testlang/src/ast.rs:85-202). */
module AstMetadata {
  import opened Options
  import S = Schema
  import opened AstNodes
  import opened Regrouping

  /** Which field or record a type id stands for. */
  datatype Types = Types(fields: map<nat, S.Field>, records: map<nat, string>)

  /* What there is to record */

  predicate IsLeaf(s: Spot) {
    s.node.value.Int? || s.node.value.Float? || s.node.value.Bytes? || s.node.value.String?
  }

  function FieldOf(ty: Types, s: Spot): Option<S.Field> {
    if s.node.typeId in ty.fields then Some(ty.fields[s.node.typeId]) else None
  }

  /** The name a leaf declares. */
  function Declares(ty: Types, s: Spot): Option<string> {
    if IsLeaf(s) && FieldOf(ty, s).Some? then Some(FieldOf(ty, s).value.name) else None
  }

  function SizeRef(f: S.Field): Option<string> {
    match if f.byteSize.Some? then f.byteSize else f.len
    case Some(Single(Reference(Ref(ToField, name)))) => Some(name)
    case _ => None
  }

  /** The field whose value is the size of this leaf, by name. */
  function SizeName(ty: Types, s: Spot): Option<string> {
    if !IsLeaf(s) || FieldOf(ty, s).None? then None else SizeRef(FieldOf(ty, s).value)
  }

  /** The last node of `ps` that declares `name` in a scope still open at id `x`. */
  function Latest(ty: Types, ps: seq<Spot>, name: string, x: nat): (r: Option<nat>)
    ensures r.Some? ==>
              && r.value < |ps| && Declares(ty, ps[r.value]) == Some(name) && x < ps[r.value].end
              && forall k | r.value < k < |ps| :: Declares(ty, ps[k]) == Some(name) ==> ps[k].end <= x
    ensures r.None? ==> forall k | 0 <= k < |ps| :: Declares(ty, ps[k]) == Some(name) ==> ps[k].end <= x
  {
    if ps == [] then None
    else if Declares(ty, ps[|ps| - 1]) == Some(name) && x < ps[|ps| - 1].end then Some(|ps| - 1)
    else Latest(ty, ps[..|ps| - 1], name, x)
  }

  /** What the size of leaf `k` refers to: nodes after `k` never count. */
  function SizeTarget(ty: Types, ps: seq<Spot>, k: nat): Option<nat>
    requires k < |ps|
  {
    if SizeName(ty, ps[k]).None? then None else Latest(ty, ps[..k + 1], SizeName(ty, ps[k]).value, k)
  }

  datatype Role = Normal | Mutable | MutableString | Choosable | ArrayNode | UnionNode

  function Choices(f: S.Field): nat {
    if f.possibleValues.None? then 0 else |f.possibleValues.value|
  }

  predicate HasRole(ty: Types, s: Spot, role: Role) {
    match role
    case Normal => IsLeaf(s)
    case Mutable => IsLeaf(s) && FieldOf(ty, s).Some? && Choices(FieldOf(ty, s).value) == 0
    case MutableString => IsLeaf(s) && FieldOf(ty, s).Some? && Choices(FieldOf(ty, s).value) == 0 && FieldOf(ty, s).value.kind.String?
    case Choosable => IsLeaf(s) && FieldOf(ty, s).Some? && Choices(FieldOf(ty, s).value) >= 2
    case ArrayNode => s.node.value.Group? && FieldOf(ty, s).Some? && FieldOf(ty, s).value.kind.Array?
    case UnionNode => s.node.value.Union?
  }

  /** The ids of the nodes with that role, in preorder. */
  function Ids(ty: Types, ps: seq<Spot>, role: Role): (ids: seq<nat>)
    ensures forall i | 0 <= i < |ids| :: ids[i] < |ps|
    ensures forall i, j | 0 <= i < j < |ids| :: ids[i] < ids[j]
  {
    if ps == [] then []
    else Ids(ty, ps[..|ps| - 1], role) + if HasRole(ty, ps[|ps| - 1], role) then [|ps| - 1] else []
  }

  lemma {:induction false} IdsAre(ty: Types, ps: seq<Spot>, role: Role, k: nat)
    ensures k in Ids(ty, ps, role) <==> k < |ps| && HasRole(ty, ps[k], role)
  {
    if ps != [] {
      IdsAre(ty, ps[..|ps| - 1], role, k);
    }
  }

  /** The record whose name is kept with the node. */
  function RecordName(ty: Types, s: Spot): Option<string> {
    if HasRole(ty, s, ArrayNode) then
      match FieldOf(ty, s).value.items
      case Some(Ref(ToRecord, name)) => Some(name)
      case _ => None
    else if s.node.value.Union? && s.node.typeId in ty.records then Some(ty.records[s.node.typeId])
    else None
  }

  /** A node that cannot be recorded: its type is unknown or unfit, or its size refers to nothing. */
  predicate Faulty(ty: Types, ps: seq<Spot>, k: nat)
    requires k < |ps|
  {
    var s := ps[k];
    || (IsLeaf(s) && FieldOf(ty, s).None?)
    || (IsLeaf(s) && SizeName(ty, s).Some? && SizeTarget(ty, ps, k).None?)
    || (HasRole(ty, s, Mutable) && (FieldOf(ty, s).value.kind.Array? || FieldOf(ty, s).value.kind.Record?))
    || (HasRole(ty, s, ArrayNode) && RecordName(ty, s).None?)
    || (s.node.value.Union? && RecordName(ty, s).None?)
  }

  /* The record */

  datatype Data = Data(
    nextId: nat,
    valueRef: map<nat, nat>,
    valueOf: map<nat, set<nat>>,
    sizeRef: map<nat, nat>,
    sizeOf: map<nat, set<nat>>,
    recordName: map<nat, string>,
    normal: seq<nat>,
    mutable: seq<nat>,
    mutableStrings: seq<nat>,
    choosable: seq<nat>,
    arrays: seq<nat>,
    unions: seq<nat>)

  /** The two maps are inverse to each other. */
  ghost predicate Inverse(to: map<nat, nat>, from: map<nat, set<nat>>) {
    forall x: nat, y: nat :: (x in to && to[x] == y) <==> (y in from && x in from[y])
  }

  ghost predicate Listed(ty: Types, ps: seq<Spot>, m: Data) {
    && m.normal == Ids(ty, ps, Normal) && m.mutable == Ids(ty, ps, Mutable)
    && m.mutableStrings == Ids(ty, ps, MutableString) && m.choosable == Ids(ty, ps, Choosable)
    && m.arrays == Ids(ty, ps, ArrayNode) && m.unions == Ids(ty, ps, UnionNode)
  }

  /** For every node, what its size refers to. */
  ghost function Targets(ty: Types, ps: seq<Spot>): seq<Option<nat>> {
    seq(|ps|, k requires 0 <= k < |ps| => SizeTarget(ty, ps, k))
  }

  /** For every node, what it is a reference to. */
  ghost function Values(ps: seq<Spot>): seq<Option<nat>> {
    seq(|ps|, k requires 0 <= k < |ps| => ValueTarget(ps[k]))
  }

  function ValueTarget(s: Spot): Option<nat> {
    if s.node.value.Ref? then Some(s.node.value.target) else None
  }

  ghost function RecordNames(ty: Types, ps: seq<Spot>): seq<Option<string>> {
    seq(|ps|, k requires 0 <= k < |ps| => RecordName(ty, ps[k]))
  }

  /** The map holds exactly what the list has. */
  ghost predicate Holds<T>(xs: seq<Option<T>>, m: map<nat, T>) {
    && (forall k: nat {:trigger k in m} :: k in m <==> k < |xs| && xs[k].Some?)
    && forall k: nat {:trigger m[k]} | k in m :: xs[k] == Some(m[k])
  }

  /** The record is that of the nodes `ps`, none of which is faulty. */
  ghost predicate Describes(ty: Types, ps: seq<Spot>, m: Data) {
    && m.nextId == |ps| && Listed(ty, ps, m)
    && Holds(Targets(ty, ps), m.sizeRef) && Inverse(m.sizeRef, m.sizeOf)
    && Holds(Values(ps), m.valueRef) && Inverse(m.valueRef, m.valueOf)
    && Holds(RecordNames(ty, ps), m.recordName)
    && forall k | 0 <= k < |ps| :: !Faulty(ty, ps, k)
  }

  /* One more node */

  lemma {:induction false} LatestOfLonger(ty: Types, ps: seq<Spot>, qs: seq<Spot>, k: nat)
    requires k < |ps| <= |qs| && ps == qs[..|ps|]
    ensures SizeTarget(ty, qs, k) == SizeTarget(ty, ps, k) && (Faulty(ty, qs, k) <==> Faulty(ty, ps, k))
  {
    assert ps[..k + 1] == qs[..k + 1];
  }

  function Added(from: map<nat, set<nat>>, y: nat, x: nat): map<nat, set<nat>> {
    from[y := (if y in from then from[y] else {}) + {x}]
  }

  function AddedTo(from: map<nat, set<nat>>, y: Option<nat>, x: nat): map<nat, set<nat>> {
    if y.Some? then Added(from, y.value, x) else from
  }

  function Put<T>(m: map<nat, T>, k: nat, x: Option<T>): map<nat, T> {
    if x.Some? then m[k := x.value] else m
  }

  lemma {:induction false} AddedIsInverse(to: map<nat, nat>, from: map<nat, set<nat>>, x: nat, y: nat)
    requires Inverse(to, from) && x !in to
    ensures Inverse(to[x := y], Added(from, y, x))
  {
    var to', from' := to[x := y], Added(from, y, x);
    forall u: nat, v: nat
      ensures (u in to' && to'[u] == v) <==> (v in from' && u in from'[v])
    {
      assert (u in to && to[u] == v) <==> (v in from && u in from[v]);
    }
  }

  function Listing(ty: Types, s: Spot, role: Role, ids: seq<nat>, n: nat): seq<nat> {
    if HasRole(ty, s, role) then ids + [n] else ids
  }

  /** The record after one more node, of which `target` is the size. */
  ghost predicate Recorded(ty: Types, n: nat, s: Spot, target: Option<nat>, m: Data, m': Data) {
    && m'.nextId == n + 1
    && m'.normal == Listing(ty, s, Normal, m.normal, n) && m'.mutable == Listing(ty, s, Mutable, m.mutable, n)
    && m'.mutableStrings == Listing(ty, s, MutableString, m.mutableStrings, n)
    && m'.choosable == Listing(ty, s, Choosable, m.choosable, n)
    && m'.arrays == Listing(ty, s, ArrayNode, m.arrays, n) && m'.unions == Listing(ty, s, UnionNode, m.unions, n)
    && m'.sizeRef == Put(m.sizeRef, n, target) && m'.sizeOf == AddedTo(m.sizeOf, target, n)
    && m'.valueRef == Put(m.valueRef, n, ValueTarget(s)) && m'.valueOf == AddedTo(m.valueOf, ValueTarget(s), n)
    && m'.recordName == Put(m.recordName, n, RecordName(ty, s))
  }

  lemma {:induction false} OneMoreNode(ty: Types, ps: seq<Spot>, s: Spot, target: Option<nat>, m: Data, m': Data)
    requires Describes(ty, ps, m) && target == SizeTarget(ty, ps + [s], |ps|) && Recorded(ty, |ps|, s, target, m, m')
    requires !Faulty(ty, ps + [s], |ps|)
    ensures Describes(ty, ps + [s], m')
  {
    var qs, n := ps + [s], |ps|;
    assert qs[..n] == ps;
    forall k: nat | k < n
      ensures SizeTarget(ty, qs, k) == SizeTarget(ty, ps, k) && !Faulty(ty, qs, k)
    {
      LatestOfLonger(ty, ps, qs, k);
    }
    assert Targets(ty, qs) == Targets(ty, ps) + [target];
    assert Values(qs) == Values(ps) + [ValueTarget(s)];
    assert RecordNames(ty, qs) == RecordNames(ty, ps) + [RecordName(ty, s)];
    PutOneMore(Targets(ty, ps), m.sizeRef, target);
    PutOneMore(Values(ps), m.valueRef, ValueTarget(s));
    PutOneMore(RecordNames(ty, ps), m.recordName, RecordName(ty, s));
    if target.Some? { AddedIsInverse(m.sizeRef, m.sizeOf, n, target.value); }
    if ValueTarget(s).Some? { AddedIsInverse(m.valueRef, m.valueOf, n, ValueTarget(s).value); }
    OneMoreListed(ty, ps, s, target, m, m');
  }

  lemma {:induction false} PutOneMore<T>(xs: seq<Option<T>>, m: map<nat, T>, x: Option<T>)
    requires Holds(xs, m)
    ensures Holds(xs + [x], Put(m, |xs|, x)) && |xs| !in m
  {
  }

  lemma {:induction false} OneMoreListed(ty: Types, ps: seq<Spot>, s: Spot, target: Option<nat>, m: Data, m': Data)
    requires Listed(ty, ps, m) && Recorded(ty, |ps|, s, target, m, m')
    ensures Listed(ty, ps + [s], m')
  {
    assert (ps + [s])[..|ps + [s]| - 1] == ps;
  }

  /* Scopes */

  /** Scopes opened so far are closed, or reach to `end` at least. */
  ghost predicate Nested(ps: seq<Spot>, end: nat) {
    forall k | 0 <= k < |ps| :: ps[k].end <= |ps| || end <= ps[k].end
  }

  /** The reference map holds what is in scope for the next node, if there is one. */
  ghost predicate Scoped(ty: Types, ps: seq<Spot>, refs: map<string, nat>, end: nat) {
    |ps| < end ==> forall name {:trigger Latest(ty, ps, name, |ps|)} :: Known(refs, name) == Latest(ty, ps, name, |ps|)
  }

  function Known(refs: map<string, nat>, name: string): Option<nat> {
    if name in refs then Some(refs[name]) else None
  }

  lemma {:induction false} LatestMoves(ty: Types, ps: seq<Spot>, name: string, x: nat, y: nat)
    requires x <= y && forall k | 0 <= k < |ps| :: ps[k].end <= x || y < ps[k].end
    ensures Latest(ty, ps, name, y) == Latest(ty, ps, name, x)
  {
    if ps != [] { LatestMoves(ty, ps[..|ps| - 1], name, x, y); }
  }

  /** What a closed scope declared is not seen any more. */
  lemma {:induction false} LatestSkips(ty: Types, ps: seq<Spot>, qs: seq<Spot>, name: string, x: nat)
    requires forall k | 0 <= k < |qs| :: qs[k].end <= x || Declares(ty, qs[k]) != Some(name)
    ensures Latest(ty, ps + qs, name, x) == Latest(ty, ps, name, x)
    decreases |qs|
  {
    if qs == [] {
      assert ps + qs == ps;
    } else {
      assert (ps + qs)[..|ps + qs| - 1] == ps + qs[..|qs| - 1];
      LatestSkips(ty, ps, qs[..|qs| - 1], name, x);
    }
  }

  lemma {:induction false} EndsWithin(t: Node, n: nat, end: nat)
    requires n + Size(t) <= end
    ensures forall k | 0 <= k < |Preorder(Numbered(t, n), end)| :: Preorder(Numbered(t, n), end)[k].end <= end
  {
    NumberingKeepsSize(t, n);
    match t.value
    case Group(nodes) => AllEndsWithin(nodes, n + 1, n + Size(t));
    case Record(inner) => EndsWithin(inner, n + 1, end);
    case Union(_, inner) => EndsWithin(inner, n + 1, n + Size(t));
    case _ =>
  }

  lemma {:induction false} AllEndsWithin(ts: seq<Node>, n: nat, end: nat)
    requires n + SizeAll(ts) <= end
    ensures forall k | 0 <= k < |PreorderAll(NumberedAll(ts, n), end)| :: PreorderAll(NumberedAll(ts, n), end)[k].end <= end
  {
    if ts != [] {
      EndsWithin(ts[0], n, end);
      AllEndsWithin(ts[1..], n + Size(ts[0]), end);
    }
  }

  /** A node that declares nothing leaves the scope as it is, and may open one. */
  lemma {:induction false} SilentNode(ty: Types, ps: seq<Spot>, s: Spot, refs: map<string, nat>, end: nat, inner: nat)
    requires Nested(ps, end) && Scoped(ty, ps, refs, end) && s.end == end && |ps| < inner <= end && !IsLeaf(s)
    ensures Nested(ps + [s], inner) && Scoped(ty, ps + [s], refs, inner)
  {
    var n := |ps|;
    if n + 1 < inner {
      forall name
        ensures Known(refs, name) == Latest(ty, ps + [s], name, n + 1)
      {
        LatestSkips(ty, ps, [s], name, n + 1);
        LatestMoves(ty, ps, name, n, n + 1);
      }
    }
  }

  /** A leaf finds what is in scope, itself included, and is in scope from then on. */
  lemma {:induction false} LeafNode(ty: Types, ps: seq<Spot>, s: Spot, refs: map<string, nat>, end: nat)
    requires Nested(ps, end) && Scoped(ty, ps, refs, end) && s.end == end && |ps| < end && Declares(ty, s).Some?
    ensures SizeName(ty, s).Some? ==> SizeTarget(ty, ps + [s], |ps|) == Known(refs[Declares(ty, s).value := |ps|], SizeName(ty, s).value)
    ensures Nested(ps + [s], end) && Scoped(ty, ps + [s], refs[Declares(ty, s).value := |ps|], end)
  {
    var n, qs, refs' := |ps|, ps + [s], refs[Declares(ty, s).value := |ps|];
    assert qs[..n] == ps && qs[..n + 1] == qs;
    forall name
      ensures Latest(ty, qs, name, n) == Known(refs', name)
      ensures n + 1 < end ==> Latest(ty, qs, name, n + 1) == Known(refs', name)
    {
      assert Known(refs, name) == Latest(ty, ps, name, n);
      if n + 1 < end { LatestMoves(ty, qs, name, n, n + 1); }
    }
  }

  /** When a scope closes, the names around it are as they were before it opened. */
  lemma {:induction false} ScopeCloses(ty: Types, ps: seq<Spot>, s: Spot, qs: seq<Spot>, refs: map<string, nat>, end: nat)
    requires Nested(ps, end) && Scoped(ty, ps, refs, end) && s.end == end && !IsLeaf(s)
    requires |ps| + 1 + |qs| <= end && forall k | 0 <= k < |qs| :: qs[k].end <= |ps| + 1 + |qs|
    ensures Nested(ps + [s] + qs, end) && Scoped(ty, ps + [s] + qs, refs, end)
  {
    var n, all := |ps|, ps + [s] + qs;
    forall k | 0 <= k < |all|
      ensures all[k].end <= |all| || end <= all[k].end
    {
      if k < n { assert all[k] == ps[k]; }
    }
    if |all| < end {
      forall name
        ensures Known(refs, name) == Latest(ty, all, name, |all|)
      {
        LatestSkips(ty, ps + [s], qs, name, |all|);
        LatestSkips(ty, ps, [s], name, |all|);
        LatestMoves(ty, ps, name, n, |all|);
      }
    }
  }

  /* Filling in the record */

  /** What the size of a field refers to, given the names in scope. */
  function SizeIn(field: S.Field, refs: map<string, nat>): Option<nat> {
    if SizeRef(field).None? then None else Known(refs, SizeRef(field).value)
  }

  function WithRole(m: Data, id: nat, field: S.Field): Data {
    m.(choosable := if Choices(field) >= 2 then m.choosable + [id] else m.choosable,
       mutable := if Choices(field) == 0 then m.mutable + [id] else m.mutable,
       mutableStrings := if Choices(field) == 0 && field.kind.String? then m.mutableStrings + [id] else m.mutableStrings)
  }

  /** The record after a leaf. */
  function WithLeaf(m: Data, id: nat, field: S.Field, size: Option<nat>): Data {
    var sized := m.(nextId := id + 1, sizeRef := Put(m.sizeRef, id, size), sizeOf := AddedTo(m.sizeOf, size, id));
    WithRole(sized, id, field).(normal := m.normal + [id])
  }

  lemma {:induction false} LeafIsRecorded(ty: Types, ps: seq<Spot>, s: Spot, field: S.Field, refs: map<string, nat>, m: Data)
    requires Describes(ty, ps, m) && IsLeaf(s) && FieldOf(ty, s) == Some(field)
    requires SizeRef(field).Some? ==> SizeRef(field).value in refs && SizeTarget(ty, ps + [s], |ps|) == Known(refs, SizeRef(field).value)
    requires Choices(field) > 0 || !(field.kind.Array? || field.kind.Record?)
    ensures Describes(ty, ps + [s], WithLeaf(m, |ps|, field, SizeIn(field, refs)))
  {
    OneMoreNode(ty, ps, s, SizeIn(field, refs), m, WithLeaf(m, |ps|, field, SizeIn(field, refs)));
  }

  ghost predicate HasFault(ty: Types, ps: seq<Spot>) {
    exists k :: 0 <= k < |ps| && Faulty(ty, ps, k)
  }

  /** Either the record covers `qs` too, or some node so far is faulty. */
  ghost predicate Filled(ty: Types, ps: seq<Spot>, qs: seq<Spot>, m: Data, ok: bool) {
    if ok then Describes(ty, ps + qs, m) else HasFault(ty, ps + qs)
  }

  ghost predicate InScope(ty: Types, ps: seq<Spot>, refs: map<string, nat>, end: nat) {
    Nested(ps, end) && Scoped(ty, ps, refs, end)
  }

  lemma {:induction false} FaultExtends(ty: Types, ps: seq<Spot>, qs: seq<Spot>)
    requires HasFault(ty, ps) && |ps| <= |qs| && ps == qs[..|ps|]
    ensures HasFault(ty, qs)
  {
    var k :| 0 <= k < |ps| && Faulty(ty, ps, k);
    LatestOfLonger(ty, ps, qs, k);
  }

  lemma {:induction false} FaultStays(ty: Types, ps: seq<Spot>, s: Spot, qs: seq<Spot>)
    requires Faulty(ty, ps + [s], |ps|) && qs != [] && qs[0] == s
    ensures HasFault(ty, ps + qs)
  {
    FaultExtends(ty, ps + [s], ps + qs);
  }

  predicate SameShape(v: Value, u: Value) {
    match v
    case Group(_) => u.Group?
    case Record(_) => u.Record?
    case Union(_, _) => u.Union?
    case _ => u == v
  }

  /** The record after a node that is no leaf. */
  function WithInner(m: Data, ty: Types, id: nat, s: Spot): Data {
    m.(nextId := id + 1,
       arrays := Listing(ty, s, ArrayNode, m.arrays, id),
       unions := Listing(ty, s, UnionNode, m.unions, id),
       valueRef := Put(m.valueRef, id, ValueTarget(s)), valueOf := AddedTo(m.valueOf, ValueTarget(s), id),
       recordName := Put(m.recordName, id, RecordName(ty, s)))
  }

  lemma {:induction false} InnerIsRecorded(ty: Types, ps: seq<Spot>, s: Spot, m: Data)
    requires Describes(ty, ps, m) && !IsLeaf(s) && !Faulty(ty, ps + [s], |ps|)
    ensures Describes(ty, ps + [s], WithInner(m, ty, |ps|, s))
  {
    OneMoreNode(ty, ps, s, None, m, WithInner(m, ty, |ps|, s));
  }

  class Metadata {
    var nextId: nat
    var valueRef: map<nat, nat>
    var valueOf: map<nat, set<nat>>
    var sizeRef: map<nat, nat>
    var sizeOf: map<nat, set<nat>>
    var recordName: map<nat, string>
    var normal: seq<nat>
    var mutable: seq<nat>
    var mutableStrings: seq<nat>
    var choosable: seq<nat>
    var arrays: seq<nat>
    var unions: seq<nat>

    function Now(): Data
      reads this
    {
      Data(nextId, valueRef, valueOf, sizeRef, sizeOf, recordName, normal, mutable, mutableStrings, choosable, arrays, unions)
    }

    constructor ()
      ensures Now() == Data(0, map[], map[], map[], map[], map[], [], [], [], [], [], [])
    {
      nextId := 0;
      valueRef, valueOf, sizeRef, sizeOf, recordName := map[], map[], map[], map[], map[];
      normal, mutable, mutableStrings, choosable, arrays, unions := [], [], [], [], [], [];
    }

    method TakeId() returns (id: nat)
      modifies this
      ensures id == old(nextId) && Now() == old(Now()).(nextId := old(nextId) + 1)
    {
      id := nextId;
      nextId := nextId + 1;
    }

    method RecordSize(id: nat, field: S.Field, refs: map<string, nat>) returns (ok: bool)
      modifies this
      ensures ok ==> Now() == old(Now()).(sizeRef := Put(old(sizeRef), id, SizeIn(field, refs)),
                                          sizeOf := AddedTo(old(sizeOf), SizeIn(field, refs), id))
      ensures ok <==> SizeRef(field).None? || SizeRef(field).value in refs
    {
      match if field.byteSize.Some? then field.byteSize else field.len {
        case Some(Single(Reference(Ref(ToField, name)))) =>
          if name !in refs {
            return false;
          }
          sizeRef := sizeRef[id := refs[name]];
          sizeOf := Added(sizeOf, refs[name], id);
        case _ =>
      }
      ok := true;
    }

    method RecordRole(id: nat, field: S.Field) returns (ok: bool)
      modifies this
      ensures ok <==> Choices(field) > 0 || !(field.kind.Array? || field.kind.Record?)
      ensures ok ==> Now() == WithRole(old(Now()), id, field)
    {
      if field.possibleValues.Some? && |field.possibleValues.value| >= 2 {
        choosable := choosable + [id];
      } else if field.possibleValues.None? || |field.possibleValues.value| == 0 {
        match field.kind {
          case Array => return false;
          case Record => return false;
          case String =>
            mutable := mutable + [id];
            mutableStrings := mutableStrings + [id];
          case _ =>
            mutable := mutable + [id];
        }
      }
      ok := true;
    }

    method RecordLeaf(id: nat, field: S.Field, refs: map<string, nat>, ghost before: Data) returns (ok: bool)
      requires Now() == before.(nextId := id + 1)
      modifies this
      ensures ok <==> (SizeRef(field).None? || SizeRef(field).value in refs) && (Choices(field) > 0 || !(field.kind.Array? || field.kind.Record?))
      ensures ok ==> Now() == WithLeaf(before, id, field, SizeIn(field, refs))
    {
      ok := RecordSize(id, field, refs);
      if !ok {
        return;
      }
      ok := RecordRole(id, field);
      if !ok {
        return;
      }
      normal := normal + [id];
    }

    /** A leaf, whose id has been taken. */
    method ProcessNormalField(t: Node, ty: Types, refs: map<string, nat>, ghost ps: seq<Spot>, ghost end: nat, ghost before: Data)
      returns (ok: bool, refs': map<string, nat>)
      requires IsLeaf(Spot(t, end)) && t.id == |ps| && |ps| < end
      requires Describes(ty, ps, before) && Now() == before.(nextId := |ps| + 1)
      requires Nested(ps, end) && Scoped(ty, ps, refs, end)
      modifies this
      ensures ok ==> Describes(ty, ps + [Spot(t, end)], Now()) && Nested(ps + [Spot(t, end)], end) && Scoped(ty, ps + [Spot(t, end)], refs', end)
      ensures !ok ==> Faulty(ty, ps + [Spot(t, end)], |ps|)
    {
      refs' := refs;
      ghost var s := Spot(t, end);
      if t.typeId !in ty.fields {
        return false, refs';
      }
      var field := ty.fields[t.typeId];
      refs' := refs'[field.name := t.id];
      LeafNode(ty, ps, s, refs, end);
      ok := RecordLeaf(t.id, field, refs', before);
      if ok {
        LeafIsRecorded(ty, ps, s, field, refs', before);
      }
    }

    /** Any other node, before its children. */
    method ProcessInnerNode(t: Node, ty: Types, ghost ps: seq<Spot>, ghost s: Spot, ghost before: Data) returns (ok: bool)
      requires t.id == |ps| && !IsLeaf(s) && s.node.typeId == t.typeId && SameShape(s.node.value, t.value)
      requires Describes(ty, ps, before) && Now() == before.(nextId := |ps| + 1)
      modifies this
      ensures ok ==> Describes(ty, ps + [s], Now())
      ensures !ok ==> Faulty(ty, ps + [s], |ps|)
    {
      ok := RecordInner(t, ty, s);
      if ok {
        assert Now() == WithInner(before, ty, |ps|, s);
        InnerIsRecorded(ty, ps, s, before);
      }
    }

    method RecordInner(t: Node, ty: Types, ghost s: Spot) returns (ok: bool)
      requires !IsLeaf(s) && s.node.typeId == t.typeId && SameShape(s.node.value, t.value) && nextId == t.id + 1
      modifies this
      ensures ok <==> !((HasRole(ty, s, ArrayNode) || s.node.value.Union?) && RecordName(ty, s).None?)
      ensures ok ==> Now() == WithInner(old(Now()), ty, t.id, s)
    {
      match t.value {
        case Group(_) =>
          if t.typeId in ty.fields && ty.fields[t.typeId].kind.Array? {
            match ty.fields[t.typeId].items {
              case Some(Ref(ToRecord, name)) =>
                arrays := arrays + [t.id];
                recordName := recordName[t.id := name];
              case _ => return false;
            }
          }
        case Union(_, _) =>
          if t.typeId !in ty.records {
            return false;
          }
          unions := unions + [t.id];
          recordName := recordName[t.id := ty.records[t.typeId]];
        case Ref(target) =>
          valueRef := valueRef[t.id := target];
          valueOf := Added(valueOf, target, t.id);
        case _ =>
      }
      ok := true;
    }
  }

  method FillMetadata(t: Node, meta: Metadata, ty: Types, refs: map<string, nat>, ghost ps: seq<Spot>, ghost end: nat)
    returns (ok: bool, t': Node, refs': map<string, nat>)
    requires Describes(ty, ps, meta.Now()) && |ps| + Size(t) <= end
    requires Nested(ps, end) && Scoped(ty, ps, refs, end)
    modifies meta
    ensures Filled(ty, ps, Preorder(Numbered(t, |ps|), end), meta.Now(), ok)
    ensures ok ==> t' == Numbered(t, |ps|) && InScope(ty, ps + Preorder(Numbered(t, |ps|), end), refs', end)
    decreases t, 0
  {
    ghost var before, s := meta.Now(), Spot(Numbered(t, |ps|), end);
    var id := meta.TakeId();
    t' := t.(id := id);
    refs' := refs;
    match t.value {
      case Group(nodes) =>
        ok, t' := FillGroup(t', nodes, meta, ty, refs, ps, end, before);
      case Record(inner) =>
        ok, t', refs' := FillRecord(t', inner, meta, ty, refs, ps, end, before);
      case Union(choice, inner) =>
        ok, t' := FillUnion(t', choice, inner, meta, ty, refs, ps, end, before);
      case Ref(_) =>
        ok := meta.ProcessInnerNode(t', ty, ps, s, before);
        assert Preorder(Numbered(t, id), end) == [s];
        if ok { SilentNode(ty, ps, s, refs, end, end); } else { FaultStays(ty, ps, s, [s]); }
      case _ =>
        ok, refs' := meta.ProcessNormalField(t', ty, refs, ps, end, before);
        assert Preorder(Numbered(t, id), end) == [s];
        if !ok { FaultStays(ty, ps, s, [s]); }
    }
  }

  /** The nodes so far, and the first `i` of a group. */
  ghost function SpotsUpTo(ps: seq<Spot>, nodes: seq<Node>, i: nat, end: nat): seq<Spot>
    requires i <= |nodes|
  {
    ps + PreorderAll(NumberedAll(nodes[..i], |ps|), end)
  }

  lemma {:induction false} NoSpotsYet(ps: seq<Spot>, nodes: seq<Node>, end: nat)
    ensures SpotsUpTo(ps, nodes, 0, end) == ps
  {
  }

  lemma {:induction false} NextSpots(ps: seq<Spot>, nodes: seq<Node>, i: nat, end: nat)
    requires i < |nodes|
    ensures |SpotsUpTo(ps, nodes, i, end)| == |ps| + SizeAll(nodes[..i])
    ensures SizeAll(nodes[..i]) + Size(nodes[i]) <= SizeAll(nodes)
    ensures NumberedAll(nodes[..i + 1], |ps|) == NumberedAll(nodes[..i], |ps|) + [Numbered(nodes[i], |SpotsUpTo(ps, nodes, i, end)|)]
    ensures SpotsUpTo(ps, nodes, i + 1, end)
         == SpotsUpTo(ps, nodes, i, end) + Preorder(Numbered(nodes[i], |SpotsUpTo(ps, nodes, i, end)|), end)
    ensures SpotsUpTo(ps, nodes, i + 1, end) <= ps + PreorderAll(NumberedAll(nodes, |ps|), end)
  {
    var n := |ps|;
    var before, next := PreorderAll(NumberedAll(nodes[..i], n), end), Preorder(Numbered(nodes[i], n + SizeAll(nodes[..i])), end);
    PreordersAreNumbered(nodes[..i], n, end);
    NextNumbered(nodes, i, n, end);
    PrefixSpots(nodes, i + 1, n, end);
    SizeSnoc(nodes, i);
    Associative(ps, before, next);
    PrefixAfter(ps, before + next, PreorderAll(NumberedAll(nodes, n), end));
  }

  lemma {:induction false} NextNumbered(nodes: seq<Node>, i: nat, n: nat, end: nat)
    requires i < |nodes|
    ensures NumberedAll(nodes[..i + 1], n) == NumberedAll(nodes[..i], n) + [Numbered(nodes[i], n + SizeAll(nodes[..i]))]
    ensures PreorderAll(NumberedAll(nodes[..i + 1], n), end)
         == PreorderAll(NumberedAll(nodes[..i], n), end) + Preorder(Numbered(nodes[i], n + SizeAll(nodes[..i])), end)
  {
    assert nodes[..i + 1] == nodes[..i] + [nodes[i]];
    NumberedSnoc(nodes[..i], nodes[i], n);
    PreorderSnoc(NumberedAll(nodes[..i], n), Numbered(nodes[i], n + SizeAll(nodes[..i])), end);
  }

  lemma {:induction false} PrefixAfter<T>(a: seq<T>, b: seq<T>, c: seq<T>)
    requires b <= c
    ensures a + b <= a + c
  {
  }

  lemma {:induction false} PrefixSpots(nodes: seq<Node>, i: nat, n: nat, end: nat)
    requires i <= |nodes|
    ensures PreorderAll(NumberedAll(nodes[..i], n), end) <= PreorderAll(NumberedAll(nodes, n), end)
    ensures SizeAll(nodes[..i]) <= SizeAll(nodes)
  {
    assert nodes == nodes[..i] + nodes[i..];
    NumberedConcat(nodes[..i], nodes[i..], n);
    PreorderConcat(NumberedAll(nodes[..i], n), NumberedAll(nodes[i..], n + SizeAll(nodes[..i])), end);
    SizeConcat(nodes[..i], nodes[i..]);
  }

  lemma {:induction false} SizeSnoc(nodes: seq<Node>, i: nat)
    requires i < |nodes|
    ensures SizeAll(nodes[..i + 1]) == SizeAll(nodes[..i]) + Size(nodes[i])
    ensures SizeAll(nodes[..i + 1]) <= SizeAll(nodes)
  {
    assert nodes[..i + 1] == nodes[..i] + [nodes[i]];
    SizeConcat(nodes[..i], [nodes[i]]);
    assert SizeAll([nodes[i]]) == Size(nodes[i]) + SizeAll([]);
    PrefixSpots(nodes, i + 1, 0, 0);
  }

  method FillGroup(t: Node, nodes: seq<Node>, meta: Metadata, ty: Types, refs: map<string, nat>, ghost ps: seq<Spot>, ghost end: nat, ghost before: Data)
    returns (ok: bool, t': Node)
    requires t.value == Group(nodes) && t.id == |ps| && |ps| + Size(t) <= end
    requires Describes(ty, ps, before) && meta.Now() == before.(nextId := |ps| + 1) && InScope(ty, ps, refs, end)
    modifies meta
    ensures Filled(ty, ps, Preorder(Numbered(t, |ps|), end), meta.Now(), ok)
    ensures ok ==> t' == Numbered(t, |ps|) && InScope(ty, ps + Preorder(Numbered(t, |ps|), end), refs, end)
    decreases nodes, 1
  {
    ghost var s, inner := Spot(Numbered(t, |ps|), end), |ps| + Size(t);
    ghost var below := PreorderAll(NumberedAll(nodes, |ps| + 1), inner);
    t' := t;
    NumberingKeepsSize(t, |ps|);
    assert Preorder(Numbered(t, |ps|), end) == [s] + below;
    ok := meta.ProcessInnerNode(t, ty, ps, s, before);
    if ok {
      SilentNode(ty, ps, s, refs, end, inner);
      var nodes';
      ok, nodes' := FillNodes(nodes, meta, ty, refs, ps + [s], inner);
      t' := t.(value := Group(nodes'));
      Associative(ps, [s], below);
      PreordersAreNumbered(nodes, |ps| + 1, inner);
      AllEndsWithin(nodes, |ps| + 1, inner);
      ScopeCloses(ty, ps, s, below, refs, end);
    } else {
      FaultStays(ty, ps, s, [s] + below);
    }
  }

  method FillRecord(t: Node, child: Node, meta: Metadata, ty: Types, refs: map<string, nat>, ghost ps: seq<Spot>, ghost end: nat, ghost before: Data)
    returns (ok: bool, t': Node, refs': map<string, nat>)
    requires t.value == Record(child) && t.id == |ps| && |ps| + Size(t) <= end
    requires Describes(ty, ps, before) && meta.Now() == before.(nextId := |ps| + 1) && InScope(ty, ps, refs, end)
    modifies meta
    ensures Filled(ty, ps, Preorder(Numbered(t, |ps|), end), meta.Now(), ok)
    ensures ok ==> t' == Numbered(t, |ps|) && InScope(ty, ps + Preorder(Numbered(t, |ps|), end), refs', end)
    decreases child, 1
  {
    ghost var s, below := Spot(Numbered(t, |ps|), end), Preorder(Numbered(child, |ps| + 1), end);
    t', refs' := t, refs;
    assert Preorder(Numbered(t, |ps|), end) == [s] + below;
    ok := meta.ProcessInnerNode(t, ty, ps, s, before);
    if ok {
      SilentNode(ty, ps, s, refs, end, end);
      var child';
      ok, child', refs' := FillMetadata(child, meta, ty, refs, ps + [s], end);
      t' := t.(value := Record(child'));
      Associative(ps, [s], below);
    } else {
      FaultStays(ty, ps, s, [s] + below);
    }
  }

  method FillUnion(t: Node, choice: nat, child: Node, meta: Metadata, ty: Types, refs: map<string, nat>, ghost ps: seq<Spot>, ghost end: nat, ghost before: Data)
    returns (ok: bool, t': Node)
    requires t.value == Union(choice, child) && t.id == |ps| && |ps| + Size(t) <= end
    requires Describes(ty, ps, before) && meta.Now() == before.(nextId := |ps| + 1) && InScope(ty, ps, refs, end)
    modifies meta
    ensures Filled(ty, ps, Preorder(Numbered(t, |ps|), end), meta.Now(), ok)
    ensures ok ==> t' == Numbered(t, |ps|) && InScope(ty, ps + Preorder(Numbered(t, |ps|), end), refs, end)
    decreases child, 1
  {
    ghost var s, inner := Spot(Numbered(t, |ps|), end), |ps| + Size(t);
    ghost var below := Preorder(Numbered(child, |ps| + 1), inner);
    t' := t;
    NumberingKeepsSize(t, |ps|);
    assert Preorder(Numbered(t, |ps|), end) == [s] + below;
    ok := meta.ProcessInnerNode(t, ty, ps, s, before);
    if ok {
      SilentNode(ty, ps, s, refs, end, inner);
      var child', copy := child, refs;
      ok, child', copy := FillMetadata(child, meta, ty, copy, ps + [s], inner);
      t' := t.(value := Union(choice, child'));
      Associative(ps, [s], below);
      PreorderIsNumbered(child, |ps| + 1, inner);
      EndsWithin(child, |ps| + 1, inner);
      ScopeCloses(ty, ps, s, below, refs, end);
    } else {
      FaultStays(ty, ps, s, [s] + below);
    }
  }

  /** The nodes of a group share one set of names, which is theirs alone. */
  method FillNodes(nodes: seq<Node>, meta: Metadata, ty: Types, refs: map<string, nat>, ghost ps: seq<Spot>, ghost end: nat)
    returns (ok: bool, nodes': seq<Node>)
    requires Describes(ty, ps, meta.Now()) && |ps| + SizeAll(nodes) <= end && InScope(ty, ps, refs, end)
    modifies meta
    ensures Filled(ty, ps, PreorderAll(NumberedAll(nodes, |ps|), end), meta.Now(), ok)
    ensures ok ==> nodes' == NumberedAll(nodes, |ps|)
    decreases nodes, 0
  {
    var local := refs;
    nodes' := [];
    NoSpotsYet(ps, nodes, end);
    for i := 0 to |nodes|
      invariant nodes' == NumberedAll(nodes[..i], |ps|)
      invariant Describes(ty, SpotsUpTo(ps, nodes, i, end), meta.Now())
      invariant InScope(ty, SpotsUpTo(ps, nodes, i, end), local, end)
    {
      ghost var done := SpotsUpTo(ps, nodes, i, end);
      NextSpots(ps, nodes, i, end);
      var next;
      ok, next, local := FillMetadata(nodes[i], meta, ty, local, done, end);
      if !ok {
        FaultExtends(ty, SpotsUpTo(ps, nodes, i + 1, end), ps + PreorderAll(NumberedAll(nodes, |ps|), end));
        return;
      }
      nodes' := nodes' + [next];
    }
    assert nodes[..|nodes|] == nodes;
    ok := true;
  }

  /** Numbers a tree and records it: succeeds exactly if no node is faulty. */
  method NewAst(root: Node, ty: Types) returns (ok: bool, root': Node, meta: Metadata)
    ensures ok <==> !HasFault(ty, Preorder(Numbered(root, 0), Size(root)))
    ensures ok ==> root' == Numbered(root, 0) && fresh(meta) && Describes(ty, Preorder(root', Size(root)), meta.Now())
  {
    meta := new Metadata();
    ghost var ps := Preorder(Numbered(root, 0), Size(root));
    assert [] + ps == ps;
    var refs;
    ok, root', refs := FillMetadata(root, meta, ty, map[], [], Size(root));
  }

  /* What the record says */

  /** Node `s` is a leaf, and `f` is its field. */
  ghost predicate IsLeafOf(ty: Types, s: Spot, f: S.Field) {
    (s.node.value.Int? || s.node.value.Float? || s.node.value.Bytes? || s.node.value.String?)
    && s.node.typeId in ty.fields && ty.fields[s.node.typeId] == f
  }

  /** The byte size of the leaf's field, or else its length, is a reference to the field `name`. */
  ghost predicate IsSizedBy(ty: Types, s: Spot, name: string) {
    var ref := Some(S.Single(S.Reference(S.Ref(S.ToField, name))));
    exists f :: IsLeafOf(ty, s, f) && (f.byteSize == ref || (f.byteSize.None? && f.len == ref))
  }

  ghost predicate IsNamed(ty: Types, s: Spot, name: string) {
    exists f :: IsLeafOf(ty, s, f) && f.name == name
  }

  lemma {:induction false} NamesMean(ty: Types, s: Spot, name: string)
    ensures SizeName(ty, s) == Some(name) <==> IsSizedBy(ty, s, name)
    ensures Declares(ty, s) == Some(name) <==> IsNamed(ty, s, name)
  {
    if s.node.typeId in ty.fields {
      var f := ty.fields[s.node.typeId];
      if IsLeaf(s) { assert IsLeafOf(ty, s, f); }
    }
  }

  /** A size refers to the latest field of that name whose scope is still open: never to a later
      node, and to a node inside a group or union only from inside it. */
  lemma {:induction false} SizesAreLexical(ty: Types, ps: seq<Spot>, m: Data, k: nat, name: string)
    requires Describes(ty, ps, m) && k < |ps|
    ensures (forall n :: !IsSizedBy(ty, ps[k], n)) ==> k !in m.sizeRef
    ensures IsSizedBy(ty, ps[k], name) ==>
              && k in m.sizeRef && m.sizeRef[k] <= k < ps[m.sizeRef[k]].end && IsNamed(ty, ps[m.sizeRef[k]], name)
              && forall z | m.sizeRef[k] < z <= k && IsNamed(ty, ps[z], name) :: ps[z].end <= k
  {
    assert !Faulty(ty, ps, k);
    assert Targets(ty, ps)[k] == SizeTarget(ty, ps, k);
    if SizeName(ty, ps[k]).Some? { NamesMean(ty, ps[k], SizeName(ty, ps[k]).value); }
    NamesMean(ty, ps[k], name);
    if IsSizedBy(ty, ps[k], name) {
      var qs, y := ps[..k + 1], m.sizeRef[k];
      NamesMean(ty, ps[y], name);
      forall z | y < z <= k && IsNamed(ty, ps[z], name)
        ensures ps[z].end <= k
      {
        NamesMean(ty, ps[z], name);
        assert qs[z] == ps[z];
      }
    }
  }

  /** A node is the size of exactly those that refer to it as their size. */
  lemma {:induction false} SizesAreInverse(ty: Types, ps: seq<Spot>, m: Data, x: nat, y: nat)
    requires Describes(ty, ps, m)
    ensures (x < |ps| && SizeTarget(ty, ps, x) == Some(y)) <==> (y in m.sizeOf && x in m.sizeOf[y])
  {
    assert (x in m.sizeRef && m.sizeRef[x] == y) <==> (y in m.sizeOf && x in m.sizeOf[y]);
    if x < |ps| { assert Targets(ty, ps)[x] == SizeTarget(ty, ps, x); }
  }

  /** A node is the value of exactly those that refer to it as their value. */
  lemma {:induction false} ValuesAreInverse(ty: Types, ps: seq<Spot>, m: Data, x: nat, y: nat)
    requires Describes(ty, ps, m)
    ensures (x < |ps| && ps[x].node.value == Ref(y)) <==> (y in m.valueOf && x in m.valueOf[y])
  {
    assert (x in m.valueRef && m.valueRef[x] == y) <==> (y in m.valueOf && x in m.valueOf[y]);
    if x < |ps| { assert Values(ps)[x] == ValueTarget(ps[x]); }
  }

  /** The normal fields are the leaves, each once and in order; those without possible values can
      be mutated, those with several can be chosen, and those with one are neither. */
  lemma {:induction false} NormalFieldsSplit(ty: Types, ps: seq<Spot>, m: Data, k: nat)
    requires Describes(ty, ps, m)
    ensures forall i, j | 0 <= i < j < |m.normal| :: m.normal[i] < m.normal[j]
    ensures k in m.normal <==> k < |ps| && exists f :: IsLeafOf(ty, ps[k], f)
    ensures k < |ps| ==> forall f | IsLeafOf(ty, ps[k], f) ::
              && (k in m.mutable <==> f.possibleValues == None || f.possibleValues == Some([]))
              && (k in m.choosable <==> f.possibleValues.Some? && |f.possibleValues.value| >= 2)
              && (k in m.mutableStrings <==> k in m.mutable && f.kind == S.FieldKind.String)
    ensures k in m.mutable || k in m.choosable || k in m.mutableStrings ==> k in m.normal
  {
    IdsAre(ty, ps, Normal, k);
    IdsAre(ty, ps, Mutable, k);
    IdsAre(ty, ps, Choosable, k);
    IdsAre(ty, ps, MutableString, k);
    if k < |ps| {
      assert !Faulty(ty, ps, k);
      if IsLeaf(ps[k]) { assert IsLeafOf(ty, ps[k], ty.fields[ps[k].node.typeId]); }
    }
  }

  /** Node `s` holds the items of an array, whose field is `f`. */
  ghost predicate IsArrayOf(ty: Types, s: Spot, f: S.Field) {
    s.node.value.Group? && s.node.typeId in ty.fields && ty.fields[s.node.typeId] == f && f.kind == S.FieldKind.Array
  }

  /** Arrays are recorded with the record their items refer to, unions with their own; nothing else has
      a record name. */
  lemma {:induction false} RecordsAreNamed(ty: Types, ps: seq<Spot>, m: Data, k: nat)
    requires Describes(ty, ps, m)
    ensures k in m.arrays <==> k < |ps| && exists f :: IsArrayOf(ty, ps[k], f)
    ensures k in m.unions <==> k < |ps| && ps[k].node.value.Union?
    ensures k in m.recordName <==> k in m.arrays || k in m.unions
    ensures k < |ps| ==> forall f | IsArrayOf(ty, ps[k], f) :: k in m.recordName && f.items == Some(S.Ref(S.ToRecord, m.recordName[k]))
    ensures k in m.unions ==> k in m.recordName && ps[k].node.typeId in ty.records && ty.records[ps[k].node.typeId] == m.recordName[k]
  {
    IdsAre(ty, ps, ArrayNode, k);
    IdsAre(ty, ps, UnionNode, k);
    if k < |ps| {
      assert !Faulty(ty, ps, k);
      assert RecordNames(ty, ps)[k] == RecordName(ty, ps[k]);
      if HasRole(ty, ps[k], ArrayNode) { assert IsArrayOf(ty, ps[k], ty.fields[ps[k].node.typeId]); }
    }
  }

  /** What makes a node faulty: a leaf of an unknown field, a size that names nothing in scope, a leaf
      without values of a field for arrays or records, an array without a record, or a union of an
      unknown record. */
  lemma {:induction false} FaultsMean(ty: Types, ps: seq<Spot>, k: nat)
    requires k < |ps|
    ensures Faulty(ty, ps, k) <==>
            || ((ps[k].node.value.Int? || ps[k].node.value.Float? || ps[k].node.value.Bytes? || ps[k].node.value.String?) && ps[k].node.typeId !in ty.fields)
            || (exists name :: IsSizedBy(ty, ps[k], name) && forall y | 0 <= y <= k && IsNamed(ty, ps[y], name) :: ps[y].end <= k)
            || (exists f :: IsLeafOf(ty, ps[k], f) && (f.possibleValues == None || f.possibleValues == Some([])) && (f.kind == S.FieldKind.Array || f.kind == S.FieldKind.Record))
            || (exists f :: IsArrayOf(ty, ps[k], f) && forall name :: f.items != Some(S.Ref(S.ToRecord, name)))
            || (ps[k].node.value.Union? && ps[k].node.typeId !in ty.records)
  {
    var s := ps[k];
    if s.node.typeId in ty.fields {
      var f := ty.fields[s.node.typeId];
      if IsLeaf(s) { assert IsLeafOf(ty, s, f); }
      if s.node.value.Group? && f.kind.Array? { assert IsArrayOf(ty, s, f); }
    }
    UnresolvedMeans(ty, ps, k);
  }

  lemma {:induction false} UnresolvedMeans(ty: Types, ps: seq<Spot>, k: nat)
    requires k < |ps|
    ensures SizeName(ty, ps[k]).Some? && SizeTarget(ty, ps, k).None? <==>
            exists name :: IsSizedBy(ty, ps[k], name) && forall y | 0 <= y <= k && IsNamed(ty, ps[y], name) :: ps[y].end <= k
  {
    if SizeName(ty, ps[k]).Some? {
      NoneInScope(ty, ps, k, SizeName(ty, ps[k]).value);
    }
    forall name | IsSizedBy(ty, ps[k], name)
      ensures SizeName(ty, ps[k]) == Some(name)
    {
      NamesMean(ty, ps[k], name);
    }
  }

  lemma {:induction false} NoneInScope(ty: Types, ps: seq<Spot>, k: nat, name: string)
    requires k < |ps| && SizeName(ty, ps[k]) == Some(name)
    ensures IsSizedBy(ty, ps[k], name)
    ensures SizeTarget(ty, ps, k).None? <==> forall y | 0 <= y <= k && IsNamed(ty, ps[y], name) :: ps[y].end <= k
  {
    NamesMean(ty, ps[k], name);
    var qs := ps[..k + 1];
    forall y | 0 <= y <= k
      ensures Declares(ty, qs[y]) == Some(name) <==> IsNamed(ty, ps[y], name)
      ensures qs[y] == ps[y]
    {
      NamesMean(ty, ps[y], name);
    }
    var y := Latest(ty, qs, name, k);
    if y.Some? { assert IsNamed(ty, ps[y.value], name); }
  }
}
