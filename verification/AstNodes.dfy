/** Trees of parsed values, their numbering, and the search by number (testlang/src/ast.rs). */
module AstNodes {
  import opened Options
  import opened Regrouping

  datatype Value =
    | Int(num: int)
    | Float(bits: int)
    | Bytes(bytes: seq<int>)
    | String(text: seq<int>)
    | Group(nodes: seq<Node>)          // of an array or a struct
    | Record(inner: Node)              // of a field that is a record
    | Union(choice: nat, inner: Node)
    | Ref(target: nat)

  datatype Node = Node(id: nat, typeId: nat, value: Value)

  function Size(t: Node): (n: nat)
    ensures n > 0
  {
    match t.value
    case Group(nodes) => 1 + SizeAll(nodes)
    case Record(inner) => 1 + Size(inner)
    case Union(_, inner) => 1 + Size(inner)
    case _ => 1
  }

  function SizeAll(ts: seq<Node>): nat {
    if ts == [] then 0 else Size(ts[0]) + SizeAll(ts[1..])
  }

  /** The tree with ids from `n` on: a node before its children, and those from left to right. */
  function Numbered(t: Node, n: nat): Node {
    match t.value
    case Group(nodes) => t.(id := n, value := Group(NumberedAll(nodes, n + 1)))
    case Record(inner) => t.(id := n, value := Record(Numbered(inner, n + 1)))
    case Union(choice, inner) => t.(id := n, value := Union(choice, Numbered(inner, n + 1)))
    case _ => t.(id := n)
  }

  function NumberedAll(ts: seq<Node>, n: nat): (us: seq<Node>)
    ensures |us| == |ts|
  {
    if ts == [] then [] else [Numbered(ts[0], n)] + NumberedAll(ts[1..], n + Size(ts[0]))
  }

  /** A node where it stands: names declared beside it are known up to, but not at, id `end`. */
  datatype Spot = Spot(node: Node, end: nat)

  /** All nodes in preorder.  Groups and unions open a scope; records do not. */
  function Preorder(t: Node, end: nat): seq<Spot> {
    [Spot(t, end)] +
    match t.value
    case Group(nodes) => PreorderAll(nodes, t.id + Size(t))
    case Record(inner) => Preorder(inner, end)
    case Union(_, inner) => Preorder(inner, t.id + Size(t))
    case _ => []
  }

  function PreorderAll(ts: seq<Node>, end: nat): seq<Spot> {
    if ts == [] then [] else Preorder(ts[0], end) + PreorderAll(ts[1..], end)
  }

  lemma {:induction false} NumberingKeepsSize(t: Node, n: nat)
    ensures Size(Numbered(t, n)) == Size(t)
  {
    match t.value
    case Group(nodes) => NumberingKeepsSizes(nodes, n + 1);
    case Record(inner) => NumberingKeepsSize(inner, n + 1);
    case Union(_, inner) => NumberingKeepsSize(inner, n + 1);
    case _ =>
  }

  lemma {:induction false} NumberingKeepsSizes(ts: seq<Node>, n: nat)
    ensures SizeAll(NumberedAll(ts, n)) == SizeAll(ts)
  {
    if ts != [] {
      NumberingKeepsSize(ts[0], n);
      NumberingKeepsSizes(ts[1..], n + Size(ts[0]));
    }
  }

  /** Preorder is the order of the ids, which are contiguous. */
  lemma {:induction false} PreorderIsNumbered(t: Node, n: nat, end: nat)
    ensures |Preorder(Numbered(t, n), end)| == Size(t)
    ensures forall k | 0 <= k < Size(t) :: Preorder(Numbered(t, n), end)[k].node.id == n + k
  {
    NumberingKeepsSize(t, n);
    match t.value
    case Group(nodes) => PreordersAreNumbered(nodes, n + 1, n + Size(t));
    case Record(inner) => PreorderIsNumbered(inner, n + 1, end);
    case Union(_, inner) => PreorderIsNumbered(inner, n + 1, n + Size(t));
    case _ =>
  }

  lemma {:induction false} PreordersAreNumbered(ts: seq<Node>, n: nat, end: nat)
    ensures |PreorderAll(NumberedAll(ts, n), end)| == SizeAll(ts)
    ensures forall k | 0 <= k < SizeAll(ts) :: PreorderAll(NumberedAll(ts, n), end)[k].node.id == n + k
  {
    if ts != [] {
      PreorderIsNumbered(ts[0], n, end);
      PreordersAreNumbered(ts[1..], n + Size(ts[0]), end);
    }
  }

  /* Search */

  /** From left to right, leaving out every subtree whose root has a larger id. */
  function FindById(t: Node, id: nat): Option<Node> {
    if t.id < id then
      match t.value
      case Group(nodes) => FindFirst(nodes, id)
      case Union(_, inner) => FindById(inner, id)
      case Record(inner) => FindById(inner, id)
      case _ => None
    else if t.id == id then Some(t)
    else None
  }

  function FindFirst(ts: seq<Node>, id: nat): Option<Node> {
    if ts == [] then None
    else
      var r := FindById(ts[0], id);
      if r.Some? then r else FindFirst(ts[1..], id)
  }

  /** From right to left, as the search for a node to change goes. */
  function FindByIdMut(t: Node, id: nat): Option<Node> {
    if t.id < id then
      match t.value
      case Group(nodes) => FindLast(nodes, id)
      case Union(_, inner) => FindByIdMut(inner, id)
      case Record(inner) => FindByIdMut(inner, id)
      case _ => None
    else if t.id == id then Some(t)
    else None
  }

  function FindLast(ts: seq<Node>, id: nat): Option<Node>
    decreases ts
  {
    if ts == [] then None
    else
      var r := FindByIdMut(ts[|ts| - 1], id);
      if r.Some? then r else FindLast(ts[..|ts| - 1], id)
  }

  /** What either search must return on the tree numbered from `n`: the node with that id. */
  function Expected(ps: seq<Spot>, n: nat, id: nat): Option<Node> {
    if n <= id < n + |ps| then Some(ps[id - n].node) else None
  }

  lemma {:induction false} ExpectedBelow(s: Spot, below: seq<Spot>, n: nat, id: nat)
    ensures n < id ==> Expected([s] + below, n, id) == Expected(below, n + 1, id)
    ensures n == id ==> Expected([s] + below, n, id) == Some(s.node)
    ensures id < n ==> Expected([s] + below, n, id) == None
  {
  }

  lemma {:induction false} ExpectedConcat(a: seq<Spot>, b: seq<Spot>, n: nat, id: nat)
    ensures Expected(a + b, n, id) == if Expected(a, n, id).Some? then Expected(a, n, id) else Expected(b, n + |a|, id)
    ensures Expected(a + b, n, id) == if Expected(b, n + |a|, id).Some? then Expected(b, n + |a|, id) else Expected(a, n, id)
  {
  }

  /** What stands below the root. */
  function Below(t: Node, end: nat): seq<Spot> {
    match t.value
    case Group(nodes) => PreorderAll(nodes, t.id + Size(t))
    case Record(inner) => Preorder(inner, end)
    case Union(_, inner) => Preorder(inner, t.id + Size(t))
    case _ => []
  }

  lemma {:induction false} FindByIdIsExact(t: Node, n: nat, id: nat, end: nat)
    ensures FindById(Numbered(t, n), id) == Expected(Preorder(Numbered(t, n), end), n, id)
  {
    var u := Numbered(t, n);
    NumberingKeepsSize(t, n);
    ExpectedBelow(Spot(u, end), Below(u, end), n, id);
    match t.value
    case Group(nodes) => FindFirstIsExact(nodes, n + 1, id, n + Size(t));
    case Record(inner) => FindByIdIsExact(inner, n + 1, id, end);
    case Union(_, inner) => FindByIdIsExact(inner, n + 1, id, n + Size(t));
    case _ =>
  }

  lemma {:induction false} FindFirstIsExact(ts: seq<Node>, n: nat, id: nat, end: nat)
    ensures FindFirst(NumberedAll(ts, n), id) == Expected(PreorderAll(NumberedAll(ts, n), end), n, id)
  {
    if ts != [] {
      FindByIdIsExact(ts[0], n, id, end);
      FindFirstIsExact(ts[1..], n + Size(ts[0]), id, end);
      PreorderIsNumbered(ts[0], n, end);
      ExpectedConcat(Preorder(Numbered(ts[0], n), end), PreorderAll(NumberedAll(ts[1..], n + Size(ts[0])), end), n, id);
    }
  }

  lemma {:induction false} FindByIdMutIsExact(t: Node, n: nat, id: nat, end: nat)
    ensures FindByIdMut(Numbered(t, n), id) == Expected(Preorder(Numbered(t, n), end), n, id)
    decreases t, 1, 0
  {
    var u := Numbered(t, n);
    NumberingKeepsSize(t, n);
    ExpectedBelow(Spot(u, end), Below(u, end), n, id);
    match t.value
    case Group(nodes) =>
      assert nodes[..|nodes|] == nodes;
      FindLastIsExact(t, nodes, |nodes|, n + 1, id, n + Size(t));
    case Record(inner) => FindByIdMutIsExact(inner, n + 1, id, end);
    case Union(_, inner) => FindByIdMutIsExact(inner, n + 1, id, n + Size(t));
    case _ =>
  }

  /** Among the first `k` children. */
  lemma {:induction false} FindLastIsExact(t: Node, ts: seq<Node>, k: nat, n: nat, id: nat, end: nat)
    requires t.value == Group(ts) && k <= |ts|
    ensures FindLast(NumberedAll(ts[..k], n), id) == Expected(PreorderAll(NumberedAll(ts[..k], n), end), n, id)
    decreases t, 0, k
  {
    if k > 0 {
      var init, last := ts[..k - 1], ts[k - 1];
      var m := n + SizeAll(init);
      assert ts[..k] == init + [last];
      NumberedSnoc(init, last, n);
      var us := NumberedAll(init, n);
      assert (us + [Numbered(last, m)])[..k - 1] == us;
      FindByIdMutIsExact(last, m, id, end);
      FindLastIsExact(t, ts, k - 1, n, id, end);
      PreorderSnoc(us, Numbered(last, m), end);
      PreordersAreNumbered(init, n, end);
      ExpectedConcat(PreorderAll(us, end), Preorder(Numbered(last, m), end), n, id);
    }
  }

  lemma {:induction false} NumberedSnoc(ts: seq<Node>, u: Node, n: nat)
    ensures NumberedAll(ts + [u], n) == NumberedAll(ts, n) + [Numbered(u, n + SizeAll(ts))]
  {
    if ts != [] {
      NumberedSnoc(ts[1..], u, n + Size(ts[0]));
      assert (ts + [u])[1..] == ts[1..] + [u];
    }
  }

  lemma {:induction false} PreorderConcat(ts: seq<Node>, us: seq<Node>, end: nat)
    ensures PreorderAll(ts + us, end) == PreorderAll(ts, end) + PreorderAll(us, end)
  {
    if ts == [] {
      assert ts + us == us;
    } else {
      var head := Preorder(ts[0], end);
      PreorderConcat(ts[1..], us, end);
      assert (ts + us)[1..] == ts[1..] + us && (ts + us)[0] == ts[0];
      Associative(head, PreorderAll(ts[1..], end), PreorderAll(us, end));
    }
  }

  lemma {:induction false} PreorderSnoc(ts: seq<Node>, u: Node, end: nat)
    ensures PreorderAll(ts + [u], end) == PreorderAll(ts, end) + Preorder(u, end)
  {
    PreorderConcat(ts, [u], end);
    assert PreorderAll([u], end) == Preorder(u, end) + PreorderAll([], end);
  }

  lemma {:induction false} SizeConcat(ts: seq<Node>, us: seq<Node>)
    ensures SizeAll(ts + us) == SizeAll(ts) + SizeAll(us)
  {
    if ts == [] {
      assert ts + us == us;
    } else {
      SizeConcat(ts[1..], us);
      assert (ts + us)[1..] == ts[1..] + us;
    }
  }

  lemma {:induction false} NumberedConcat(ts: seq<Node>, us: seq<Node>, n: nat)
    ensures NumberedAll(ts + us, n) == NumberedAll(ts, n) + NumberedAll(us, n + SizeAll(ts))
  {
    if ts == [] {
      assert ts + us == us;
    } else {
      var m := n + Size(ts[0]);
      NumberedConcat(ts[1..], us, m);
      assert (ts + us)[1..] == ts[1..] + us && (ts + us)[0] == ts[0];
      assert m + SizeAll(ts[1..]) == n + SizeAll(ts);
      Associative([Numbered(ts[0], n)], NumberedAll(ts[1..], m), NumberedAll(us, n + SizeAll(ts)));
    }
  }

  /** On a freshly numbered tree both searches return the one node with the id, or nothing if no
      node has it. */
  lemma {:induction false} SearchesAgree(t: Node, id: nat)
    ensures var ps := Preorder(Numbered(t, 0), Size(t));
            && |ps| == Size(t) && (forall k | 0 <= k < |ps| :: ps[k].node.id == k)
            && FindById(Numbered(t, 0), id) == FindByIdMut(Numbered(t, 0), id)
            && FindById(Numbered(t, 0), id) == if id < |ps| then Some(ps[id].node) else None
  {
    FindByIdIsExact(t, 0, id, Size(t));
    FindByIdMutIsExact(t, 0, id, Size(t));
    PreorderIsNumbered(t, 0, Size(t));
  }
}
