/** Function control-flow graphs as values, and the rewriting rules of the graph simplifier
    stated on them.  The mutable form of the same graphs is in CfgSimplifier. */
module FlowGraph {
  import opened SetChoice

  /** A machine address: only its identity matters here. */
  datatype Addr = Addr(value: int)

  datatype LineInfo = LineInfo(functionName: string, srcFile: string, lineNumber: int)

  datatype Block = Block(
    addrs: set<Addr>,
    prevs: set<Addr>,
    nexts: set<Addr>,
    instrumented: set<Addr>,
    lines: set<LineInfo>)

  function Union(b: Block, c: Block): Block {
    Block(b.addrs + c.addrs, b.prevs + c.prevs, b.nexts + c.nexts,
          b.instrumented + c.instrumented, b.lines + c.lines)
  }

  datatype Graph = Graph(head: Addr, tail: set<Addr>, nodes: map<Addr, Block>)

  // ---------- Well-formedness ----------

  predicate Edge(g: Graph, a: Addr, b: Addr) {
    a in g.nodes && b in g.nodes[a].nexts
  }

  predicate BackEdge(g: Graph, a: Addr, b: Addr) {
    b in g.nodes && a in g.nodes[b].prevs
  }

  /** Successor and predecessor sets mirror each other and never leave the graph. */
  ghost predicate Linked(g: Graph) {
    forall a, b :: Edge(g, a, b) <==> BackEdge(g, a, b)
  }

  ghost predicate NoSelfLoops(g: Graph) {
    forall a :: !Edge(g, a, a)
  }

  ghost predicate Anchored(g: Graph) {
    && g.head in g.nodes
    && g.nodes[g.head].instrumented != {}
    && forall t | t in g.tail :: t in g.nodes && g.nodes[t].nexts == {}
  }

  /** What holds between two rewrites: all the program checks in its test runs, but for the head's
      predecessors. */
  ghost predicate WellFormed(g: Graph) {
    Linked(g) && NoSelfLoops(g) && Anchored(g)
  }

  /** No instrumented address belongs to two blocks. */
  ghost predicate SingleOwner(g: Graph) {
    forall a, b, x ::
      a in g.nodes && b in g.nodes && x in g.nodes[a].instrumented && x in g.nodes[b].instrumented ==> a == b
  }

  ghost predicate HeadHasNoPrevs(g: Graph) {
    g.head in g.nodes && g.nodes[g.head].prevs == {}
  }

  // ---------- Paths ----------

  ghost predicate IsPath(g: Graph, p: seq<Addr>) {
    && p != []
    && (forall i | 0 <= i < |p| :: p[i] in g.nodes)
    && forall i | 0 <= i < |p| - 1 :: Edge(g, p[i], p[i + 1])
  }

  ghost predicate PathFromTo(g: Graph, p: seq<Addr>, a: Addr, b: Addr) {
    IsPath(g, p) && p[0] == a && p[|p| - 1] == b
  }

  ghost predicate Reach(g: Graph, a: Addr, b: Addr) {
    exists p :: PathFromTo(g, p, a, b)
  }

  /** All blocks strictly between the two ends of the path are hidden ones. */
  ghost predicate ThroughOnly(p: seq<Addr>, hidden: set<Addr>) {
    forall i | 0 < i < |p| - 1 :: p[i] in hidden
  }

  /** Some path of at least one edge leads from `a` to `b` through hidden blocks only. */
  ghost predicate Detour(g: Graph, hidden: set<Addr>, a: Addr, b: Addr) {
    exists p :: PathFromTo(g, p, a, b) && |p| >= 2 && ThroughOnly(p, hidden)
  }

  lemma {:induction false} PathConcat(g: Graph, p: seq<Addr>, q: seq<Addr>, a: Addr, b: Addr, c: Addr)
    requires PathFromTo(g, p, a, b) && PathFromTo(g, q, b, c)
    ensures PathFromTo(g, p + q[1..], a, c)
  {
    var r := p + q[1..];
    forall i | 0 <= i < |r| - 1
      ensures Edge(g, r[i], r[i + 1])
    {
      if i == |p| - 1 {
        assert r[i] == q[0] && r[i + 1] == q[1];
        assert Edge(g, q[0], q[0 + 1]);
      } else if i >= |p| {
        assert r[i] == q[i - |p| + 1] && r[i + 1] == q[i - |p| + 1 + 1];
      }
    }
  }

  lemma {:induction false} PathDrop(g: Graph, p: seq<Addr>, i: nat)
    requires IsPath(g, p) && i < |p|
    ensures IsPath(g, p[i..])
  {
    var q := p[i..];
    forall k | 0 <= k < |q| - 1
      ensures Edge(g, q[k], q[k + 1])
    {
      assert Edge(g, p[i + k], p[i + k + 1]);
    }
  }

  lemma {:induction false} ReachTransitive(g: Graph, a: Addr, b: Addr, c: Addr)
    requires Reach(g, a, b) && Reach(g, b, c)
    ensures Reach(g, a, c)
  {
    var p :| PathFromTo(g, p, a, b);
    var q :| PathFromTo(g, q, b, c);
    PathConcat(g, p, q, a, b, c);
  }

  lemma {:induction false} ReachStep(g: Graph, a: Addr, b: Addr)
    requires Linked(g) && Edge(g, a, b)
    ensures Reach(g, a, b)
  {
    assert BackEdge(g, a, b);
    assert PathFromTo(g, [a, b], a, b);
  }

  lemma {:induction false} ReachSelf(g: Graph, a: Addr)
    requires a in g.nodes
    ensures Reach(g, a, a)
  {
    assert PathFromTo(g, [a], a, a);
  }

  // ---------- The three rules ----------

  function Kept(prev: Addr, next: Addr, toPrev: bool): Addr { if toPrev then prev else next }

  function Dropped(prev: Addr, next: Addr, toPrev: bool): Addr { if toPrev then next else prev }

  function Redirect(s: set<Addr>, from: Addr, to: Addr): set<Addr> { s - {from} + {to} }

  /** Block `a` after the edges to and from the `dead` block have been turned to its heir. */
  function Redirected(b: Block, a: Addr, dead: Block, gone: Addr, heir: Addr): Block {
    b.(prevs := if a in dead.nexts then Redirect(b.prevs, gone, heir) else b.prevs,
       nexts := if a in dead.prevs then Redirect(b.nexts, gone, heir) else b.nexts)
  }

  /** The two ends of an edge once the edge is gone. */
  function Source(g: Graph, prev: Addr, next: Addr): Block
    requires prev in g.nodes
  {
    g.nodes[prev].(nexts := g.nodes[prev].nexts - {next})
  }

  function Target(g: Graph, prev: Addr, next: Addr): Block
    requires next in g.nodes
  {
    g.nodes[next].(prevs := g.nodes[next].prevs - {prev})
  }

  /** The neighbours of the block that goes point back at it, and none of their edges that will be
      turned is the edge merged along. */
  lemma {:induction false} LinkedAround(g: Graph, prev: Addr, next: Addr, toPrev: bool)
    requires Linked(g) && NoSelfLoops(g) && Edge(g, prev, next) && next in g.nodes
    ensures var gone := Dropped(prev, next, toPrev);
            var dead := if toPrev then Target(g, prev, next) else Source(g, prev, next);
            && (forall a | a in dead.prevs :: a in g.nodes && a != gone && a != prev && gone in g.nodes[a].nexts)
            && forall a | a in dead.nexts :: a in g.nodes && a != gone && a != next && gone in g.nodes[a].prevs
  {
    var gone := Dropped(prev, next, toPrev);
    var dead := if toPrev then Target(g, prev, next) else Source(g, prev, next);
    assert !Edge(g, gone, gone) && BackEdge(g, prev, next);
    forall a | a in dead.prevs
      ensures a in g.nodes && a != gone && a != prev && gone in g.nodes[a].nexts
    {
      assert BackEdge(g, a, gone) && Edge(g, a, gone);
    }
    forall a | a in dead.nexts
      ensures a in g.nodes && a != gone && a != next && gone in g.nodes[a].prevs
    {
      assert Edge(g, gone, a) && BackEdge(g, gone, a);
    }
  }

  function MergedBlock(g: Graph, a: Addr, keep: Addr, heir: Block, drop: Addr, dead: Block): Block
    requires a in g.nodes
  {
    if a == keep then Union(Redirected(heir, a, dead, drop, keep), dead)
    else Redirected(g.nodes[a], a, dead, drop, keep)
  }

  /** The two blocks at the ends of the edge become one, which keeps the key of one of them. */
  function Merge(g: Graph, prev: Addr, next: Addr, toPrev: bool): Graph
    requires prev in g.nodes && next in g.nodes
  {
    var p, n := Source(g, prev, next), Target(g, prev, next);
    var keep, drop := Kept(prev, next, toPrev), Dropped(prev, next, toPrev);
    var heir, dead := if toPrev then p else n, if toPrev then n else p;
    Graph(
      if g.head == drop then keep else g.head,
      if drop in g.tail then Redirect(g.tail, drop, keep) else g.tail,
      map a | a in g.nodes && a != drop :: MergedBlock(g, a, keep, heir, drop, dead))
  }

  lemma {:induction false} MergeIs(g: Graph, prev: Addr, next: Addr, toPrev: bool, h: Graph)
    requires prev in g.nodes && next in g.nodes
    requires var keep, drop := Kept(prev, next, toPrev), Dropped(prev, next, toPrev);
      var p, n := Source(g, prev, next), Target(g, prev, next);
      && h.head == (if g.head == drop then keep else g.head)
      && h.tail == (if drop in g.tail then Redirect(g.tail, drop, keep) else g.tail)
      && h.nodes.Keys == g.nodes.Keys - {drop}
      && forall a | a in h.nodes ::
        h.nodes[a] == MergedBlock(g, a, keep, if toPrev then p else n, drop, if toPrev then n else p)
    ensures h == Merge(g, prev, next, toPrev)
  {
    assert h.nodes == Merge(g, prev, next, toPrev).nodes;
  }

  /** Block `a` once block `d`, with contents `dead`, has been taken out. */
  function SkippedBlock(b: Block, a: Addr, d: Addr, dead: Block): Block {
    Block(
      if a in dead.nexts then b.addrs + dead.addrs else b.addrs,
      if a in dead.nexts then b.prevs - {d} + dead.prevs else b.prevs,
      if a in dead.prevs then b.nexts - {d} + dead.nexts else b.nexts,
      b.instrumented,
      if a in dead.nexts then b.lines + dead.lines else b.lines)
  }

  /** A block is taken out: its predecessors jump straight to its successors, which inherit
      its addresses and lines. */
  function Skip(g: Graph, d: Addr): Graph
    requires d in g.nodes
  {
    g.(nodes := map a | a in g.nodes && a != d :: SkippedBlock(g.nodes[a], a, d, g.nodes[d]))
  }

  lemma {:induction false} SkipIs(g: Graph, d: Addr, h: Graph)
    requires d in g.nodes && h.head == g.head && h.tail == g.tail
    requires h.nodes.Keys == g.nodes.Keys - {d}
    requires forall a | a in h.nodes :: h.nodes[a] == SkippedBlock(g.nodes[a], a, d, g.nodes[d])
    ensures h == Skip(g, d)
  {
    assert h.nodes == Skip(g, d).nodes;
  }

  function WithoutSelfLoop(b: Block, a: Addr): Block {
    b.(prevs := b.prevs - {a}, nexts := b.nexts - {a})
  }

  function WithoutSelfLoops(g: Graph): Graph {
    g.(nodes := map a | a in g.nodes :: WithoutSelfLoop(g.nodes[a], a))
  }

  datatype Rule =
    | Absorb(prev: Addr, next: Addr)     // the successor has a single entry and adds no line
    | Contract(prev: Addr, next: Addr)   // the edge is the only way out and the only way in
    | Bypass(addr: Addr)                 // an uninstrumented block before instrumented ones

  predicate Enabled(g: Graph, r: Rule) {
    match r
    case Absorb(prev, next) =>
      && Edge(g, prev, next) && next in g.nodes
      && |g.nodes[next].prevs| == 1
      && next !in g.tail
      && g.nodes[next].lines <= g.nodes[prev].lines
    case Contract(prev, next) =>
      && Edge(g, prev, next) && next in g.nodes
      && |g.nodes[prev].nexts| == 1
      && |g.nodes[next].prevs| == 1
    case Bypass(d) =>
      && d in g.nodes && d != g.head
      && g.nodes[d].instrumented == {}
      && g.nodes[d].nexts != {}
      && forall n | n in g.nodes[d].nexts :: n in g.nodes && g.nodes[n].instrumented != {}
  }

  function Fire(g: Graph, r: Rule): Graph
    requires Enabled(g, r)
  {
    match r
    case Absorb(prev, next) => Merge(g, prev, next, true)
    case Contract(prev, next) => Merge(g, prev, next, g.nodes[prev].instrumented != {})
    case Bypass(d) => Skip(g, d)
  }

  function Apply(g: Graph, r: Rule): Graph
    requires Enabled(g, r)
  {
    WithoutSelfLoops(Fire(g, r))
  }

  function Victim(g: Graph, r: Rule): Addr
    requires Enabled(g, r)
  {
    match r
    case Absorb(_, next) => next
    case Contract(prev, next) => Dropped(prev, next, g.nodes[prev].instrumented != {})
    case Bypass(d) => d
  }

  /** `h` is `g` with the vertex `d` eliminated, up to self loops. */
  ghost predicate Eliminated(g: Graph, d: Addr, h: Graph) {
    && d in g.nodes
    && h.nodes.Keys == g.nodes.Keys - {d}
    && forall a, b | a in h.nodes && b in h.nodes ::
         Edge(h, a, b) <==> a != b && (Edge(g, a, b) || (Edge(g, a, d) && Edge(g, d, b)))
  }

  /** Whatever the rule, firing it and dropping self loops is the elimination of one vertex. */
  lemma {:induction false} RuleEliminates(g: Graph, r: Rule)
    requires WellFormed(g) && Enabled(g, r)
    ensures Eliminated(g, Victim(g, r), Apply(g, r))
  {
    match r
    case Absorb(prev, next) =>
      MergeEliminates(g, prev, next, true);
    case Contract(prev, next) =>
      MergeEliminates(g, prev, next, g.nodes[prev].instrumented != {});
    case Bypass(d) =>
      SkipEliminates(g, d);
  }

  lemma {:induction false} MergeEliminates(g: Graph, prev: Addr, next: Addr, toPrev: bool)
    requires Linked(g) && NoSelfLoops(g) && Edge(g, prev, next) && next in g.nodes
    requires |g.nodes[next].prevs| == 1
    requires !toPrev ==> |g.nodes[prev].nexts| == 1
    ensures Eliminated(g, Dropped(prev, next, toPrev), WithoutSelfLoops(Merge(g, prev, next, toPrev)))
  {
    assert BackEdge(g, prev, next);
    OnlyElement(g.nodes[next].prevs, prev);
    if !toPrev {
      OnlyElement(g.nodes[prev].nexts, next);
    }
    var keep, drop := Kept(prev, next, toPrev), Dropped(prev, next, toPrev);
    var h := WithoutSelfLoops(Merge(g, prev, next, toPrev));
    assert prev != next by { assert !Edge(g, prev, prev); }
    forall a, b | a in h.nodes && b in h.nodes
      ensures Edge(h, a, b) <==> a != b && (Edge(g, a, b) || (Edge(g, a, drop) && Edge(g, drop, b)))
    {
      assert Edge(g, a, drop) <==> BackEdge(g, a, drop);
      assert Edge(g, a, next) <==> BackEdge(g, a, next);
      assert !Edge(g, drop, drop);
    }
  }

  lemma {:induction false} SkipEliminates(g: Graph, d: Addr)
    requires Linked(g) && NoSelfLoops(g) && d in g.nodes
    ensures Eliminated(g, d, WithoutSelfLoops(Skip(g, d)))
  {
    var h := WithoutSelfLoops(Skip(g, d));
    forall a, b | a in h.nodes && b in h.nodes
      ensures Edge(h, a, b) <==> a != b && (Edge(g, a, b) || (Edge(g, a, d) && Edge(g, d, b)))
    {
      assert Edge(g, a, d) <==> BackEdge(g, a, d);
    }
  }

  /** Every rewrite keeps the graph well formed, and an entry block without predecessors stays one. */
  lemma {:induction false} RulePreservesWellFormed(g: Graph, r: Rule)
    requires WellFormed(g) && Enabled(g, r)
    ensures WellFormed(Apply(g, r))
    ensures HeadHasNoPrevs(g) ==> HeadHasNoPrevs(Apply(g, r))
  {
    var h := Apply(g, r);
    match r {
      case Absorb(prev, next) =>
        MergePreservesWellFormed(g, prev, next, true);
      case Contract(prev, next) =>
        MergePreservesWellFormed(g, prev, next, g.nodes[prev].instrumented != {});
      case Bypass(d) =>
        SkipPreservesWellFormed(g, d);
    }
  }

  lemma {:induction false} MergePreservesWellFormed(g: Graph, prev: Addr, next: Addr, toPrev: bool)
    requires WellFormed(g) && Edge(g, prev, next) && next in g.nodes
    requires |g.nodes[next].prevs| == 1
    requires !toPrev || next in g.tail ==> |g.nodes[prev].nexts| == 1
    requires !toPrev ==> g.nodes[prev].instrumented == {}
    ensures WellFormed(WithoutSelfLoops(Merge(g, prev, next, toPrev)))
    ensures HeadHasNoPrevs(g) ==> HeadHasNoPrevs(WithoutSelfLoops(Merge(g, prev, next, toPrev)))
  {
    assert BackEdge(g, prev, next);
    assert prev != next by { assert !Edge(g, prev, prev); }
    OnlyElement(g.nodes[next].prevs, prev);
    if !toPrev || next in g.tail {
      OnlyElement(g.nodes[prev].nexts, next);
    }
    MergeLinks(g, prev, next, toPrev);
    MergeTails(g, prev, next, toPrev);
    MergeHead(g, prev, next, toPrev);
    assert forall a :: !Edge(WithoutSelfLoops(Merge(g, prev, next, toPrev)), a, a);
  }

  lemma {:induction false} MergeHead(g: Graph, prev: Addr, next: Addr, toPrev: bool)
    requires WellFormed(g) && Edge(g, prev, next) && next in g.nodes && prev != next
    requires g.nodes[next].prevs == {prev}
    requires !toPrev ==> g.nodes[prev].instrumented == {} && g.nodes[prev].nexts == {next}
    ensures var h := WithoutSelfLoops(Merge(g, prev, next, toPrev));
      && h.head in h.nodes && h.nodes[h.head].instrumented != {}
      && (HeadHasNoPrevs(g) ==> HeadHasNoPrevs(h))
  {
    var drop := Dropped(prev, next, toPrev);
    assert Edge(g, drop, g.head) <==> BackEdge(g, drop, g.head);
  }

  lemma {:induction false} MergeLinks(g: Graph, prev: Addr, next: Addr, toPrev: bool)
    requires Linked(g) && NoSelfLoops(g) && Edge(g, prev, next) && next in g.nodes && prev != next
    requires g.nodes[next].prevs == {prev}
    requires !toPrev ==> g.nodes[prev].nexts == {next}
    ensures Linked(WithoutSelfLoops(Merge(g, prev, next, toPrev)))
  {
    var keep, drop := Kept(prev, next, toPrev), Dropped(prev, next, toPrev);
    var h := WithoutSelfLoops(Merge(g, prev, next, toPrev));
    forall a, b
      ensures Edge(h, a, b) <==> BackEdge(h, a, b)
    {
      assert Edge(g, a, b) <==> BackEdge(g, a, b);
      assert Edge(g, a, drop) <==> BackEdge(g, a, drop);
      assert Edge(g, drop, b) <==> BackEdge(g, drop, b);
      assert Edge(g, a, next) <==> BackEdge(g, a, next);
      assert Edge(g, keep, b) <==> BackEdge(g, keep, b);
      assert Edge(g, a, keep) <==> BackEdge(g, a, keep);
      assert !Edge(g, drop, drop);
    }
  }

  lemma {:induction false} MergeTails(g: Graph, prev: Addr, next: Addr, toPrev: bool)
    requires WellFormed(g) && Edge(g, prev, next) && next in g.nodes && prev != next
    requires g.nodes[next].prevs == {prev}
    requires !toPrev || next in g.tail ==> g.nodes[prev].nexts == {next}
    ensures var h := WithoutSelfLoops(Merge(g, prev, next, toPrev));
      forall t | t in h.tail :: t in h.nodes && h.nodes[t].nexts == {}
  {
    var keep, drop := Kept(prev, next, toPrev), Dropped(prev, next, toPrev);
    var h := WithoutSelfLoops(Merge(g, prev, next, toPrev));
    forall t | t in h.tail
      ensures t in h.nodes && h.nodes[t].nexts == {}
    {
      assert prev !in g.tail;
      if t in g.tail {
        assert !Edge(g, t, drop) && !BackEdge(g, t, drop);
        assert h.nodes[t].nexts == {};
      } else {
        assert t == keep == prev && drop == next;
        assert h.nodes[t].nexts == {};
      }
    }
  }

  lemma {:induction false} SkipPreservesWellFormed(g: Graph, d: Addr)
    requires WellFormed(g) && Enabled(g, Bypass(d))
    ensures WellFormed(WithoutSelfLoops(Skip(g, d)))
    ensures HeadHasNoPrevs(g) ==> HeadHasNoPrevs(WithoutSelfLoops(Skip(g, d)))
  {
    var h := WithoutSelfLoops(Skip(g, d));
    forall a, b
      ensures Edge(h, a, b) <==> BackEdge(h, a, b)
    {
      assert Edge(g, a, b) <==> BackEdge(g, a, b);
      assert Edge(g, a, d) <==> BackEdge(g, a, d);
      assert Edge(g, d, b) <==> BackEdge(g, d, b);
    }
    forall t | t in h.tail
      ensures t in h.nodes && h.nodes[t].nexts == {}
    {
      assert t in g.tail && !Edge(g, t, d) && !BackEdge(g, t, d);
      assert h.nodes[t].nexts == g.nodes[t].nexts - {t};
    }
    assert Edge(g, d, g.head) <==> BackEdge(g, d, g.head);
  }

  // ---------- Runs ----------

  /** Any rule may be applied at any place: the order of Python's dictionaries is left open. */
  ghost predicate Step(g: Graph, h: Graph) {
    exists r :: Enabled(g, r) && h == Apply(g, r)
  }

  ghost predicate IsRun(tr: seq<Graph>) {
    tr != [] && forall i | 0 <= i < |tr| - 1 :: Step(tr[i], tr[i + 1])
  }

  ghost predicate Derives(g: Graph, h: Graph) {
    exists tr :: IsRun(tr) && tr[0] == g && tr[|tr| - 1] == h
  }

  lemma {:induction false} DerivesSelf(g: Graph)
    ensures Derives(g, g)
  {
    assert IsRun([g]);
  }

  lemma {:induction false} DerivesStep(g: Graph, h: Graph, k: Graph)
    requires Derives(g, h) && Step(h, k)
    ensures Derives(g, k)
  {
    var tr :| IsRun(tr) && tr[0] == g && tr[|tr| - 1] == h;
    var tr' := tr + [k];
    assert forall i | 0 <= i < |tr'| - 1 :: Step(tr'[i], tr'[i + 1]);
    assert IsRun(tr');
  }

  /** The rule has fired but self loops are still there. */
  ghost predicate Fires(g: Graph, r: Rule, h: Graph) {
    Enabled(g, r) && h == Fire(g, r)
  }

  predicate Smaller(h: Graph, g: Graph) {
    |h.nodes| < |g.nodes|
  }

  lemma {:induction false} FiredAndCleaned(start: Graph, g: Graph, r: Rule, h: Graph)
    requires WellFormed(g) && Derives(start, g) && Enabled(g, r) && h == Apply(g, r)
    ensures WellFormed(h) && Derives(start, h) && Smaller(h, g)
  {
    RulePreservesWellFormed(g, r);
    RuleEliminates(g, r);
    assert Step(g, h);
    DerivesStep(start, g, h);
    assert |h.nodes.Keys| == |g.nodes.Keys| - 1;
  }

  lemma {:induction false} RunPreservesWellFormed(tr: seq<Graph>)
    requires IsRun(tr) && WellFormed(tr[0])
    ensures WellFormed(tr[|tr| - 1])
    ensures HeadHasNoPrevs(tr[0]) ==> HeadHasNoPrevs(tr[|tr| - 1])
  {
    if |tr| > 1 {
      var front := tr[..|tr| - 1];
      RunPreservesWellFormed(front);
      assert Step(tr[|tr| - 2], tr[|tr| - 2 + 1]);
      var r :| Enabled(tr[|tr| - 2], r) && tr[|tr| - 1] == Apply(tr[|tr| - 2], r);
      RulePreservesWellFormed(tr[|tr| - 2], r);
    }
  }

  // ---------- What a run does to the edges ----------

  /** The edges of `h` are the paths of `g` through the blocks that `h` lacks. */
  ghost predicate Shortcut(g: Graph, h: Graph) {
    && h.nodes.Keys <= g.nodes.Keys
    && forall a, b | a in h.nodes && b in h.nodes && a != b ::
         Edge(h, a, b) <==> Detour(g, g.nodes.Keys - h.nodes.Keys, a, b)
  }

  lemma {:induction false} ShortcutSelf(g: Graph)
    ensures Shortcut(g, g)
  {
    LooplessShortcut(g, g);
  }

  /** Dropping self loops changes no edge between different blocks. */
  lemma {:induction false} LooplessShortcut(g: Graph, h: Graph)
    requires h.nodes.Keys == g.nodes.Keys
    requires forall a, b | a != b :: Edge(h, a, b) <==> Edge(g, a, b)
    ensures Shortcut(g, h)
  {
    var none := g.nodes.Keys - h.nodes.Keys;
    forall a, b | a in g.nodes && b in g.nodes && a != b
      ensures Edge(h, a, b) <==> Detour(g, none, a, b)
    {
      if Edge(g, a, b) {
        assert PathFromTo(g, [a, b], a, b);
        assert ThroughOnly([a, b], none);
      }
      if Detour(g, none, a, b) {
        var p :| PathFromTo(g, p, a, b) && |p| >= 2 && ThroughOnly(p, none);
        assert Edge(g, p[0], p[0 + 1]);
      }
    }
  }

  lemma {:induction false} LoopsGone(g: Graph)
    requires Linked(g) && Anchored(g)
    ensures WellFormed(WithoutSelfLoops(g))
  {
    var h := WithoutSelfLoops(g);
    forall a, b
      ensures Edge(h, a, b) <==> BackEdge(h, a, b)
    {
      assert Edge(g, a, b) <==> BackEdge(g, a, b);
    }
  }

  lemma {:induction false} DetourMonotone(g: Graph, small: set<Addr>, big: set<Addr>, a: Addr, b: Addr)
    requires Detour(g, small, a, b) && small <= big
    ensures Detour(g, big, a, b)
  {
    var p :| PathFromTo(g, p, a, b) && |p| >= 2 && ThroughOnly(p, small);
    assert ThroughOnly(p, big);
  }

  lemma {:induction false} DetourConcat(g: Graph, hidden: set<Addr>, a: Addr, d: Addr, b: Addr)
    requires Detour(g, hidden, a, d) && Detour(g, hidden, d, b)
    ensures Detour(g, hidden + {d}, a, b)
  {
    var p :| PathFromTo(g, p, a, d) && |p| >= 2 && ThroughOnly(p, hidden);
    var q :| PathFromTo(g, q, d, b) && |q| >= 2 && ThroughOnly(q, hidden);
    PathConcat(g, p, q, a, d, b);
    var r := p + q[1..];
    forall i | 0 < i < |r| - 1
      ensures r[i] in hidden + {d}
    {
      if i >= |p| { assert r[i] == q[i - |p| + 1]; }
    }
    assert ThroughOnly(r, hidden + {d});
  }

  /** A path through `hidden + {d}` either avoids `d` or is cut at its first and last visit of `d`. */
  lemma {:induction false} DetourSplit(g: Graph, hidden: set<Addr>, d: Addr, a: Addr, b: Addr)
    requires Detour(g, hidden + {d}, a, b) && a != d && b != d
    ensures Detour(g, hidden, a, b) || (Detour(g, hidden, a, d) && Detour(g, hidden, d, b))
  {
    var p :| PathFromTo(g, p, a, b) && |p| >= 2 && ThroughOnly(p, hidden + {d});
    if d in p {
      var i := FirstAt(p, d);
      var j := LastAt(p, d);
      var front, back := p[..i + 1], p[j..];
      assert PathFromTo(g, front, a, d) && ThroughOnly(front, hidden);
      PathDrop(g, p, j);
      assert PathFromTo(g, back, d, b) && ThroughOnly(back, hidden);
    } else {
      assert ThroughOnly(p, hidden);
    }
  }

  ghost function FirstAt(p: seq<Addr>, d: Addr): (i: nat)
    requires d in p
    ensures i < |p| && p[i] == d && d !in p[..i]
  {
    if p[0] == d then 0 else
      assert p == [p[0]] + p[1..];
      var i := FirstAt(p[1..], d);
      assert p[..i + 1] == [p[0]] + p[1..][..i];
      i + 1
  }

  ghost function LastAt(p: seq<Addr>, d: Addr): (i: nat)
    requires d in p
    ensures i < |p| && p[i] == d && d !in p[i + 1..]
  {
    if p[|p| - 1] == d then |p| - 1 else
      assert p == p[..|p| - 1] + [p[|p| - 1]];
      var i := LastAt(p[..|p| - 1], d);
      assert p[i + 1..] == p[..|p| - 1][i + 1..] + [p[|p| - 1]];
      i
  }

  lemma {:induction false} ShortcutExtends(g: Graph, h: Graph, d: Addr, k: Graph)
    requires Shortcut(g, h) && NoSelfLoops(h) && Eliminated(h, d, k)
    ensures Shortcut(g, k)
  {
    var hidden := g.nodes.Keys - h.nodes.Keys;
    assert g.nodes.Keys - k.nodes.Keys == hidden + {d};
    forall a, b | a in k.nodes && b in k.nodes && a != b
      ensures Edge(k, a, b) <==> Detour(g, hidden + {d}, a, b)
    {
      if Edge(k, a, b) {
        if Edge(h, a, b) {
          DetourMonotone(g, hidden, hidden + {d}, a, b);
        } else {
          DetourConcat(g, hidden, a, d, b);
        }
      }
      if Detour(g, hidden + {d}, a, b) {
        DetourSplit(g, hidden, d, a, b);
      }
    }
  }

  /** The edges of a simplified graph depend only on which blocks survive, not on the order
      of the rewrites: they are the original paths through deleted blocks. */
  lemma {:induction false} RunShortcuts(tr: seq<Graph>)
    requires IsRun(tr) && WellFormed(tr[0])
    ensures Shortcut(tr[0], tr[|tr| - 1])
  {
    if |tr| == 1 {
      ShortcutSelf(tr[0]);
    } else {
      var front := tr[..|tr| - 1];
      var g := tr[|tr| - 2];
      RunShortcuts(front);
      RunPreservesWellFormed(front);
      assert Step(tr[|tr| - 2], tr[|tr| - 2 + 1]);
      var r :| Enabled(g, r) && tr[|tr| - 1] == Apply(g, r);
      RuleEliminates(g, r);
      ShortcutExtends(tr[0], g, Victim(g, r), tr[|tr| - 1]);
    }
  }

  lemma {:induction false} ShortcutReach(g: Graph, h: Graph, u: Addr, v: Addr)
    requires Shortcut(g, h) && Linked(h) && u in h.nodes && v in h.nodes
    ensures Reach(h, u, v) <==> Reach(g, u, v)
  {
    if Reach(h, u, v) {
      var p :| PathFromTo(h, p, u, v);
      PathUnfolds(g, h, p);
    }
    if Reach(g, u, v) {
      var p :| PathFromTo(g, p, u, v);
      PathFolds(g, h, p);
    }
  }

  lemma {:induction false} PathUnfolds(g: Graph, h: Graph, p: seq<Addr>)
    requires Shortcut(g, h) && IsPath(h, p)
    ensures Reach(g, p[0], p[|p| - 1])
  {
    if |p| == 1 {
      ReachSelf(g, p[0]);
    } else {
      PathUnfolds(g, h, p[1..]);
      assert Edge(h, p[0], p[0 + 1]);
      if p[0] != p[1] {
        assert Detour(g, g.nodes.Keys - h.nodes.Keys, p[0], p[1]);
        assert Reach(g, p[0], p[1]);
        ReachTransitive(g, p[0], p[1], p[|p| - 1]);
      }
    }
  }

  /** A path between survivors is cut at the next survivor it meets. */
  lemma {:induction false} PathFolds(g: Graph, h: Graph, p: seq<Addr>)
    requires Shortcut(g, h) && Linked(h) && IsPath(g, p) && p[0] in h.nodes && p[|p| - 1] in h.nodes
    ensures Reach(h, p[0], p[|p| - 1])
    decreases |p|
  {
    if |p| == 1 {
      ReachSelf(h, p[0]);
    } else {
      var i := 1;
      while p[i] !in h.nodes
        invariant 1 <= i < |p|
        invariant forall k | 0 < k < i :: p[k] !in h.nodes
        decreases |p| - i
      {
        i := i + 1;
      }
      var front, back := p[..i + 1], p[i..];
      PathDrop(g, p, i);
      PathFolds(g, h, back);
      if p[0] != p[i] {
        assert PathFromTo(g, front, p[0], p[i]) && ThroughOnly(front, g.nodes.Keys - h.nodes.Keys);
        assert Detour(g, g.nodes.Keys - h.nodes.Keys, p[0], p[i]);
        ReachStep(h, p[0], p[i]);
        ReachTransitive(h, p[0], p[i], p[|p| - 1]);
      }
    }
  }

  /** Removing self loops and then simplifying keeps reachability between all surviving
      blocks, in both directions. */
  lemma {:induction false} SimplificationPreservesReachability(g: Graph, h: Graph, u: Addr, v: Addr)
    requires Linked(g) && Anchored(g) && Derives(WithoutSelfLoops(g), h) && u in h.nodes && v in h.nodes
    ensures u in g.nodes && v in g.nodes
    ensures Reach(h, u, v) <==> Reach(g, u, v)
  {
    var g' := WithoutSelfLoops(g);
    LoopsGone(g);
    LooplessShortcut(g, g');
    var tr :| IsRun(tr) && tr[0] == g' && tr[|tr| - 1] == h;
    RunShortcuts(tr);
    RunPreservesWellFormed(tr);
    ShortcutReach(g', h, u, v);
    ShortcutReach(g, g', u, v);
  }

  /** Two runs that keep the same blocks end with the same edges. */
  lemma {:induction false} RewriteOrderIsIrrelevant(g: Graph, h1: Graph, h2: Graph, a: Addr, b: Addr)
    requires WellFormed(g) && Derives(g, h1) && Derives(g, h2) && h1.nodes.Keys == h2.nodes.Keys
    requires a in h1.nodes && b in h1.nodes
    ensures Edge(h1, a, b) <==> Edge(h2, a, b)
  {
    var tr1 :| IsRun(tr1) && tr1[0] == g && tr1[|tr1| - 1] == h1;
    var tr2 :| IsRun(tr2) && tr2[0] == g && tr2[|tr2| - 1] == h2;
    RunShortcuts(tr1);
    RunShortcuts(tr2);
    RunPreservesWellFormed(tr1);
    RunPreservesWellFormed(tr2);
    assert !Edge(h1, a, a) && !Edge(h2, a, a);
  }
}
