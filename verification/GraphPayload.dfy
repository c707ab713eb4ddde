/** What the rewriting rules do to addresses, instrumented addresses and source lines, and what
    a graph looks like when no rule applies any more. */
module GraphPayload {
  import opened FlowGraph
  import opened SetChoice

  predicate Owns(g: Graph, a: Addr, x: Addr) {
    a in g.nodes && x in g.nodes[a].instrumented
  }

  predicate Contains(g: Graph, a: Addr, x: Addr) {
    a in g.nodes && x in g.nodes[a].addrs
  }

  predicate Shows(g: Graph, a: Addr, l: LineInfo) {
    a in g.nodes && l in g.nodes[a].lines
  }

  ghost predicate Owned(g: Graph, x: Addr) {
    exists a :: Owns(g, a, x)
  }

  ghost predicate Contained(g: Graph, x: Addr) {
    exists a :: Contains(g, a, x)
  }

  ghost predicate Shown(g: Graph, l: LineInfo) {
    exists a :: Shows(g, a, l)
  }

  /** The union over all blocks of addresses, instrumented addresses and lines is the same. */
  ghost predicate SameTotals(g: Graph, h: Graph) {
    && (forall x :: Owned(g, x) <==> Owned(h, x))
    && (forall x :: Contained(g, x) <==> Contained(h, x))
    && (forall l :: Shown(g, l) <==> Shown(h, l))
  }

  ghost predicate Within(b: Block, c: Block) {
    b.addrs <= c.addrs && b.lines <= c.lines && b.instrumented <= c.instrumented
  }

  /** Nothing is lost, and whoever owns an instrumented address has all its old owner had. */
  ghost predicate PayloadKept(g: Graph, h: Graph) {
    && SameTotals(g, h)
    && (forall a | a in h.nodes :: a in g.nodes && Within(g.nodes[a], h.nodes[a]))
    && (forall a, b, x :: Owns(g, a, x) && Owns(h, b, x) ==> Within(g.nodes[a], h.nodes[b]))
  }

  /** What a merge leaves in each block. */
  lemma {:induction false} MergedBlocks(g: Graph, prev: Addr, next: Addr, toPrev: bool)
    requires prev in g.nodes && next in g.nodes && prev != next
    ensures Poured(g, WithoutSelfLoops(Merge(g, prev, next, toPrev)),
                   Kept(prev, next, toPrev), Dropped(prev, next, toPrev))
  {
  }

  predicate SameContents(b: Block, c: Block) {
    b.addrs == c.addrs && b.instrumented == c.instrumented && b.lines == c.lines
  }

  lemma {:induction false} MergeKeepsPayload(g: Graph, prev: Addr, next: Addr, toPrev: bool)
    requires prev in g.nodes && next in g.nodes && prev != next && SingleOwner(g)
    ensures PayloadKept(g, WithoutSelfLoops(Merge(g, prev, next, toPrev)))
    ensures SingleOwner(WithoutSelfLoops(Merge(g, prev, next, toPrev)))
  {
    MergedBlocks(g, prev, next, toPrev);
    var h := WithoutSelfLoops(Merge(g, prev, next, toPrev));
    MergedPayload(g, h, Kept(prev, next, toPrev), Dropped(prev, next, toPrev));
  }

  /** `h` is `g` with the contents of `drop` poured into `keep`. */
  ghost predicate Poured(g: Graph, h: Graph, keep: Addr, drop: Addr) {
    && keep in g.nodes && drop in g.nodes && keep != drop
    && h.nodes.Keys == g.nodes.Keys - {drop}
    && (forall a | a in h.nodes && a != keep :: SameContents(h.nodes[a], g.nodes[a]))
    && h.nodes[keep].addrs == g.nodes[keep].addrs + g.nodes[drop].addrs
    && h.nodes[keep].instrumented == g.nodes[keep].instrumented + g.nodes[drop].instrumented
    && h.nodes[keep].lines == g.nodes[keep].lines + g.nodes[drop].lines
  }

  lemma {:induction false} MergedPayload(g: Graph, h: Graph, keep: Addr, drop: Addr)
    requires Poured(g, h, keep, drop) && SingleOwner(g)
    ensures PayloadKept(g, h) && SingleOwner(h)
  {
    DropKeepsTotals(g, h, drop, keep);
    forall b, x | Owns(h, b, x)
      ensures if b == keep then Owns(g, keep, x) || Owns(g, drop, x) else Owns(g, b, x)
    {}
    assert Within(g.nodes[keep], h.nodes[keep]) && Within(g.nodes[drop], h.nodes[keep]);
    forall a, b, x | Owns(g, a, x) && Owns(h, b, x)
      ensures Within(g.nodes[a], h.nodes[b])
    {
      if b == keep {
        assert a == keep || a == drop;
      } else {
        assert Owns(g, b, x) && a == b;
      }
    }
    forall a, b, x | Owns(h, a, x) && Owns(h, b, x)
      ensures a == b
    {
    }
    assert forall a, b, x | a in h.nodes && b in h.nodes && x in h.nodes[a].instrumented && x in h.nodes[b].instrumented ::
        Owns(h, a, x) && Owns(h, b, x);
  }

  lemma {:induction false} SkipKeepsPayload(g: Graph, d: Addr)
    requires Linked(g) && NoSelfLoops(g) && Enabled(g, Bypass(d)) && SingleOwner(g)
    ensures PayloadKept(g, WithoutSelfLoops(Skip(g, d)))
    ensures SingleOwner(WithoutSelfLoops(Skip(g, d)))
  {
    var h := WithoutSelfLoops(Skip(g, d));
    assert !Edge(g, d, d);
    SkippedPayload(g, h, d);
  }

  lemma {:induction false} SkippedPayload(g: Graph, h: Graph, d: Addr)
    requires SingleOwner(g) && d in g.nodes && g.nodes[d].instrumented == {}
    requires g.nodes[d].nexts != {} && d !in g.nodes[d].nexts && g.nodes[d].nexts <= g.nodes.Keys
    requires h.nodes.Keys == g.nodes.Keys - {d}
    requires forall a | a in h.nodes ::
      h.nodes[a] == WithoutSelfLoop(SkippedBlock(g.nodes[a], a, d, g.nodes[d]), a)
    ensures PayloadKept(g, h) && SingleOwner(h)
  {
    DropKeepsTotals(g, h, d, AnElement(g.nodes[d].nexts));
    assert forall a, x :: Owns(h, a, x) <==> Owns(g, a, x);
  }

  /** The dropped block lives on in its heir, and nothing in `h` comes from elsewhere. */
  lemma {:induction false} DropKeepsTotals(g: Graph, h: Graph, drop: Addr, heir: Addr)
    requires drop in g.nodes && h.nodes.Keys == g.nodes.Keys - {drop} && heir in h.nodes
    requires Within(g.nodes[drop], h.nodes[heir])
    requires forall a | a in h.nodes :: Within(g.nodes[a], h.nodes[a])
    requires forall a | a in h.nodes ::
      && h.nodes[a].addrs <= g.nodes[a].addrs + g.nodes[drop].addrs
      && h.nodes[a].instrumented <= g.nodes[a].instrumented + g.nodes[drop].instrumented
      && h.nodes[a].lines <= g.nodes[a].lines + g.nodes[drop].lines
    ensures SameTotals(g, h)
  {
    forall a, x | Owns(g, a, x) ensures Owned(h, x) {
      assert Owns(h, if a == drop then heir else a, x);
    }
    forall a, x | Owns(h, a, x) ensures Owned(g, x) {
      assert Owns(g, a, x) || Owns(g, drop, x);
    }
    forall a, x | Contains(g, a, x) ensures Contained(h, x) {
      assert Contains(h, if a == drop then heir else a, x);
    }
    forall a, x | Contains(h, a, x) ensures Contained(g, x) {
      assert Contains(g, a, x) || Contains(g, drop, x);
    }
    forall a, l | Shows(g, a, l) ensures Shown(h, l) {
      assert Shows(h, if a == drop then heir else a, l);
    }
    forall a, l | Shows(h, a, l) ensures Shown(g, l) {
      assert Shows(g, a, l) || Shows(g, drop, l);
    }
  }

  lemma {:induction false} RuleKeepsPayload(g: Graph, r: Rule)
    requires WellFormed(g) && SingleOwner(g) && Enabled(g, r)
    ensures PayloadKept(g, Apply(g, r)) && SingleOwner(Apply(g, r))
  {
    match r
    case Absorb(prev, next) =>
      assert !Edge(g, prev, prev);
      MergeKeepsPayload(g, prev, next, true);
    case Contract(prev, next) =>
      assert !Edge(g, prev, prev);
      MergeKeepsPayload(g, prev, next, g.nodes[prev].instrumented != {});
    case Bypass(d) =>
      SkipKeepsPayload(g, d);
  }

  lemma {:induction false} PayloadKeptTransitive(g: Graph, h: Graph, k: Graph)
    requires PayloadKept(g, h) && PayloadKept(h, k)
    ensures PayloadKept(g, k)
  {
    forall a, c, x | Owns(g, a, x) && Owns(k, c, x)
      ensures Within(g.nodes[a], k.nodes[c])
    {
      assert Owned(g, x) && Owned(h, x);
      var b :| Owns(h, b, x);
    }
  }

  lemma {:induction false} RunKeepsPayload(tr: seq<Graph>)
    requires IsRun(tr) && WellFormed(tr[0]) && SingleOwner(tr[0])
    ensures PayloadKept(tr[0], tr[|tr| - 1]) && SingleOwner(tr[|tr| - 1])
  {
    if |tr| == 1 {
      assert forall a, b, x :: Owns(tr[0], a, x) && Owns(tr[0], b, x) ==> a == b;
    } else {
      var front := tr[..|tr| - 1];
      var g := tr[|tr| - 2];
      RunKeepsPayload(front);
      RunPreservesWellFormed(front);
      assert Step(tr[|tr| - 2], tr[|tr| - 2 + 1]);
      var r :| Enabled(g, r) && tr[|tr| - 1] == Apply(g, r);
      RuleKeepsPayload(g, r);
      PayloadKeptTransitive(tr[0], g, tr[|tr| - 1]);
    }
  }

  /** Simplification conserves all addresses, instrumented addresses and lines; the block that
      ends up owning an instrumented address has at least the lines of its original block. */
  lemma {:induction false} SimplificationConserves(g: Graph, h: Graph)
    requires WellFormed(g) && SingleOwner(g) && Derives(g, h)
    ensures WellFormed(h) && SingleOwner(h) && PayloadKept(g, h)
    ensures HeadHasNoPrevs(g) ==> HeadHasNoPrevs(h)
  {
    var tr :| IsRun(tr) && tr[0] == g && tr[|tr| - 1] == h;
    RunPreservesWellFormed(tr);
    RunKeepsPayload(tr);
  }

  // ---------- Normal forms ----------

  ghost predicate NoAbsorb(g: Graph) {
    forall prev, next :: !Enabled(g, Absorb(prev, next))
  }

  ghost predicate NoContract(g: Graph) {
    forall prev, next :: !Enabled(g, Contract(prev, next))
  }

  ghost predicate NoBypass(g: Graph) {
    forall d :: !Enabled(g, Bypass(d))
  }

  /** No rule applies anywhere. */
  ghost predicate NormalForm(g: Graph) {
    NoAbsorb(g) && NoContract(g) && NoBypass(g)
  }

  ghost predicate AllUninstrumented(g: Graph, p: seq<Addr>) {
    forall i | 0 <= i < |p| :: p[i] in g.nodes && g.nodes[p[i]].instrumented == {}
  }

  /** The path runs into a block it has visited before. */
  predicate ClosesCycle(p: seq<Addr>) {
    p != [] && p[|p| - 1] in p[..|p| - 1]
  }

  lemma {:induction false} AnUninstrumentedNext(g: Graph, a: Addr) returns (n: Addr)
    requires WellFormed(g) && !Enabled(g, Bypass(a))
    requires a in g.nodes && g.nodes[a].instrumented == {} && g.nodes[a].nexts != {}
    ensures Edge(g, a, n) && n in g.nodes && g.nodes[n].instrumented == {}
  {
    if forall n | n in g.nodes[a].nexts :: n in g.nodes && g.nodes[n].instrumented != {} {
      assert false;
    }
    n :| n in g.nodes[a].nexts && !(n in g.nodes && g.nodes[n].instrumented != {});
    assert Edge(g, a, n) && BackEdge(g, a, n);
  }

  /** In a normal form an uninstrumented block leads, through uninstrumented blocks alone, to
      a block without successors or into a cycle. */
  lemma {:induction false} UninstrumentedDeadEndOrCycle(g: Graph, x: Addr) returns (p: seq<Addr>)
    requires WellFormed(g) && NormalForm(g) && x in g.nodes && g.nodes[x].instrumented == {}
    ensures IsPath(g, p) && p[0] == x && AllUninstrumented(g, p)
    ensures g.nodes[p[|p| - 1]].nexts == {} || ClosesCycle(p)
  {
    p := [x];
    while g.nodes[p[|p| - 1]].nexts != {}
      invariant IsPath(g, p) && p[0] == x && AllUninstrumented(g, p)
      invariant forall i, j | 0 <= i < j < |p| :: p[i] != p[j]
      decreases |g.nodes| - |p|
    {
      var last := p[|p| - 1];
      assert !Enabled(g, Bypass(last));
      var n := AnUninstrumentedNext(g, last);
      ghost var q := p;
      p := p + [n];
      assert forall i | 0 <= i < |p| - 1 :: Edge(g, p[i], p[i + 1]) by {
        assert forall i | 0 <= i < |q| - 1 :: Edge(g, q[i], q[i + 1]);
      }
      if n in q {
        assert p[..|p| - 1] == q;
        return;
      }
      DistinctFit(p, g.nodes.Keys);
    }
  }

  /** What a normal form has no more: a successor with a single entry that is no tail and has no line
      of its own, two blocks that always follow each other, or an uninstrumented block all of whose
      successors are instrumented. */
  lemma {:induction false} NormalFormMeans(g: Graph)
    requires Linked(g) && NormalForm(g)
    ensures forall a, b | Edge(g, a, b) && g.nodes.Keys >= {b} && g.nodes[b].prevs == {a} && b !in g.tail :: !(g.nodes[b].lines <= g.nodes[a].lines)
    ensures forall a, b | Edge(g, a, b) && g.nodes.Keys >= {b} && g.nodes[b].prevs == {a} :: g.nodes[a].nexts != {b}
    ensures forall d | d in g.nodes && d != g.head && g.nodes[d].instrumented == {} && g.nodes[d].nexts != {} ::
      exists n :: n in g.nodes[d].nexts && n in g.nodes && g.nodes[n].instrumented == {}
  {
    forall a, b | Edge(g, a, b) && g.nodes.Keys >= {b} && g.nodes[b].prevs == {a}
      ensures b !in g.tail ==> !(g.nodes[b].lines <= g.nodes[a].lines)
      ensures g.nodes[a].nexts != {b}
    {
      assert b in g.nodes;
      assert !Enabled(g, Absorb(a, b)) && !Enabled(g, Contract(a, b));
    }
    forall d | d in g.nodes && d != g.head && g.nodes[d].instrumented == {} && g.nodes[d].nexts != {}
      ensures exists n :: n in g.nodes[d].nexts && n in g.nodes && g.nodes[n].instrumented == {}
    {
      assert !Enabled(g, Bypass(d));
      var n :| n in g.nodes[d].nexts && !(n in g.nodes && g.nodes[n].instrumented != {});
      assert Edge(g, d, n) && BackEdge(g, d, n);
    }
  }

  /** Of two blocks that always follow each other, an instrumented first one stays, and otherwise the
      second one. */
  lemma {:induction false} ContractKeeps(g: Graph, a: Addr, b: Addr)
    requires WellFormed(g) && Enabled(g, Contract(a, b))
    ensures a != b
    ensures Apply(g, Contract(a, b)).nodes.Keys == g.nodes.Keys - {if g.nodes[a].instrumented != {} then b else a}
  {
    assert !Edge(g, a, a);
  }

  /** Absorbing a block drops it, and changes the lines of none. */
  lemma {:induction false} AbsorbAddsNoLine(g: Graph, a: Addr, b: Addr)
    requires WellFormed(g) && Enabled(g, Absorb(a, b))
    ensures var h := Apply(g, Absorb(a, b));
            h.nodes.Keys == g.nodes.Keys - {b} && forall c | c in h.nodes :: h.nodes[c].lines == g.nodes[c].lines
  {
    assert !Edge(g, a, a);
    MergedBlocks(g, a, b, true);
  }

  // ---------- Where the lines of a block come from ----------

  /** Some block whose key is among the addresses has the line. */
  ghost predicate FromBlocks(g: Graph, addrs: set<Addr>, l: LineInfo) {
    exists c :: c in addrs && c in g.nodes && l in g.nodes[c].lines
  }

  /** Blocks of `h` are put together from blocks of `g`: a block has the lines of those whose keys are
      among its addresses, and of survivors only its own. */
  ghost predicate Composed(g: Graph, h: Graph) {
    && (forall b | b in h.nodes :: b in h.nodes[b].addrs)
    && (forall b, c | b in h.nodes && c in h.nodes && c in h.nodes[b].addrs :: b == c)
    && forall b, l | b in h.nodes :: l in h.nodes[b].lines <==> FromBlocks(g, h.nodes[b].addrs, l)
  }

  /** No block has the key of another one among its addresses. */
  ghost predicate OwnAddrs(g: Graph) {
    forall b, c | b in g.nodes && c in g.nodes :: c in g.nodes[b].addrs <==> b == c
  }

  lemma {:induction false} ComposedSelf(g: Graph)
    requires OwnAddrs(g)
    ensures Composed(g, g)
  {
    forall b, l | b in g.nodes
      ensures l in g.nodes[b].lines <==> FromBlocks(g, g.nodes[b].addrs, l)
    {
      assert b in g.nodes[b].addrs;
    }
  }

  lemma {:induction false} FromBoth(g: Graph, s: set<Addr>, t: set<Addr>, l: LineInfo)
    ensures FromBlocks(g, s + t, l) <==> FromBlocks(g, s, l) || FromBlocks(g, t, l)
  {
    if c :| c in s + t && c in g.nodes && l in g.nodes[c].lines {
      assert c in s || c in t;
    }
    if c :| c in s && c in g.nodes && l in g.nodes[c].lines { assert c in s + t; }
    if c :| c in t && c in g.nodes && l in g.nodes[c].lines { assert c in s + t; }
  }

  /** `k` is `h` without `d`, whose addresses and lines went to some of the others, always together. */
  ghost predicate HandedOn(h: Graph, k: Graph, d: Addr) {
    && d in h.nodes && k.nodes.Keys == h.nodes.Keys - {d}
    && forall b | b in k.nodes ::
      || (k.nodes[b].addrs == h.nodes[b].addrs && k.nodes[b].lines == h.nodes[b].lines)
      || (k.nodes[b].addrs == h.nodes[b].addrs + h.nodes[d].addrs && k.nodes[b].lines == h.nodes[b].lines + h.nodes[d].lines)
  }

  lemma {:induction false} HandedOnIsComposed(g: Graph, h: Graph, k: Graph, d: Addr)
    requires Composed(g, h) && HandedOn(h, k, d)
    ensures Composed(g, k)
  {
    forall b, l | b in k.nodes
      ensures l in k.nodes[b].lines <==> FromBlocks(g, k.nodes[b].addrs, l)
    {
      FromBoth(g, h.nodes[b].addrs, h.nodes[d].addrs, l);
      assert l in h.nodes[d].lines <==> FromBlocks(g, h.nodes[d].addrs, l);
    }
  }

  lemma {:induction false} RuleHandsOn(h: Graph, r: Rule)
    requires WellFormed(h) && Enabled(h, r)
    ensures exists d :: HandedOn(h, Apply(h, r), d)
  {
    match r
    case Absorb(prev, next) =>
      assert !Edge(h, prev, prev);
      MergedBlocks(h, prev, next, true);
      assert HandedOn(h, Apply(h, r), next);
    case Contract(prev, next) =>
      assert !Edge(h, prev, prev);
      var toPrev := h.nodes[prev].instrumented != {};
      MergedBlocks(h, prev, next, toPrev);
      assert HandedOn(h, Apply(h, r), Dropped(prev, next, toPrev));
    case Bypass(d) =>
      assert HandedOn(h, Apply(h, r), d);
  }

  lemma {:induction false} RunComposes(tr: seq<Graph>)
    requires IsRun(tr) && WellFormed(tr[0]) && OwnAddrs(tr[0])
    ensures Composed(tr[0], tr[|tr| - 1])
  {
    if |tr| == 1 {
      ComposedSelf(tr[0]);
    } else {
      var front := tr[..|tr| - 1];
      var h := tr[|tr| - 2];
      RunComposes(front);
      RunPreservesWellFormed(front);
      assert Step(tr[|tr| - 2], tr[|tr| - 2 + 1]);
      var r :| Enabled(h, r) && tr[|tr| - 1] == Apply(h, r);
      RuleHandsOn(h, r);
      var d :| HandedOn(h, Apply(h, r), d);
      HandedOnIsComposed(tr[0], h, Apply(h, r), d);
    }
  }

  /** After any run, a block has exactly the lines of the original blocks whose keys are among its
      addresses, and these are its own key and keys of blocks that went. */
  lemma {:induction false} SimplificationComposes(g: Graph, h: Graph)
    requires WellFormed(g) && OwnAddrs(g) && Derives(g, h)
    ensures Composed(g, h)
  {
    var tr :| IsRun(tr) && tr[0] == g && tr[|tr| - 1] == h;
    RunComposes(tr);
  }

  /** The same with the first cleanup. */
  lemma {:induction false} SimplifiedFromOriginal(g: Graph, h: Graph)
    requires Linked(g) && Anchored(g) && OwnAddrs(g) && Derives(WithoutSelfLoops(g), h)
    ensures Composed(g, h)
  {
    var g' := WithoutSelfLoops(g);
    LoopsGone(g);
    SimplificationComposes(g', h);
    forall b, l | b in h.nodes
      ensures l in h.nodes[b].lines <==> FromBlocks(g, h.nodes[b].addrs, l)
    {
      SameLines(g, h.nodes[b].addrs, l);
    }
  }

  lemma {:induction false} SameLines(g: Graph, addrs: set<Addr>, l: LineInfo)
    ensures FromBlocks(WithoutSelfLoops(g), addrs, l) <==> FromBlocks(g, addrs, l)
  {
    var g' := WithoutSelfLoops(g);
    if c :| c in addrs && c in g'.nodes && l in g'.nodes[c].lines { assert c in g.nodes; }
    if c :| c in addrs && c in g.nodes && l in g.nodes[c].lines { assert c in g'.nodes && l in g'.nodes[c].lines; }
  }

  // ---------- Where control enters and leaves ----------

  /** Some tail holds `t`. */
  ghost predicate InSomeTail(h: Graph, t: Addr) {
    exists b :: b in h.tail && Contains(h, b, t)
  }

  ghost predicate HoldsSomeTail(g: Graph, h: Graph, b: Addr) {
    exists t :: t in g.tail && Contains(h, b, t)
  }

  /** The head is the block that holds the original head, and the tails are those that hold original
      tails. */
  ghost predicate EndsKept(g: Graph, h: Graph) {
    && Contains(h, h.head, g.head)
    && (forall t {:trigger InSomeTail(h, t)} | t in g.tail :: InSomeTail(h, t))
    && forall b {:trigger HoldsSomeTail(g, h, b)} | b in h.tail :: HoldsSomeTail(g, h, b)
  }

  /** `k` has the blocks of `h`, perhaps without `drop`, whose addresses went to `keep`. */
  ghost predicate Passed(h: Graph, k: Graph, keep: Addr, drop: Addr) {
    && (forall b, x {:trigger Contains(h, b, x)} | Contains(h, b, x) && b != drop :: Contains(k, b, x))
    && forall x {:trigger Contains(k, keep, x)} | Contains(h, drop, x) :: Contains(k, keep, x)
  }

  lemma {:induction false} TailPasses(h: Graph, k: Graph, keep: Addr, drop: Addr, t: Addr)
    requires InSomeTail(h, t) && Passed(h, k, keep, drop)
    requires k.tail == (if drop in h.tail then Redirect(h.tail, drop, keep) else h.tail)
    ensures InSomeTail(k, t)
  {
    var b :| b in h.tail && Contains(h, b, t);
    assert Contains(k, if b == drop then keep else b, t);
  }

  lemma {:induction false} TailStillHolds(g: Graph, h: Graph, k: Graph, keep: Addr, drop: Addr, b: Addr)
    requires Passed(h, k, keep, drop) && b != drop && (b in h.tail ==> HoldsSomeTail(g, h, b))
    requires b in h.tail || (b == keep && drop in h.tail && HoldsSomeTail(g, h, drop))
    ensures HoldsSomeTail(g, k, b)
  {
    var c := if b in h.tail then b else drop;
    var t :| t in g.tail && Contains(h, c, t);
    assert Contains(k, b, t);
  }

  lemma {:induction false} EndsPass(g: Graph, h: Graph, k: Graph, keep: Addr, drop: Addr)
    requires EndsKept(g, h) && Passed(h, k, keep, drop) && keep != drop
    requires k.head == (if h.head == drop then keep else h.head)
    requires k.tail == (if drop in h.tail then Redirect(h.tail, drop, keep) else h.tail)
    ensures EndsKept(g, k)
  {
    forall t | t in g.tail
      ensures InSomeTail(k, t)
    {
      TailPasses(h, k, keep, drop, t);
    }
    forall b | b in k.tail
      ensures HoldsSomeTail(g, k, b)
    {
      TailStillHolds(g, h, k, keep, drop, b);
    }
  }

  lemma {:induction false} PouredPasses(h: Graph, k: Graph, keep: Addr, drop: Addr)
    requires Poured(h, k, keep, drop)
    ensures Passed(h, k, keep, drop)
  {
  }

  lemma {:induction false} SkipPasses(h: Graph, d: Addr, heir: Addr)
    requires WellFormed(h) && Enabled(h, Bypass(d)) && heir in h.nodes[d].nexts
    ensures heir != d && heir in h.nodes && Passed(h, Apply(h, Bypass(d)), heir, d)
  {
    assert Edge(h, d, heir) && !Edge(h, d, d);
  }

  lemma {:induction false} RuleKeepsEnds(g: Graph, h: Graph, r: Rule)
    requires EndsKept(g, h) && WellFormed(h) && Enabled(h, r)
    ensures EndsKept(g, Apply(h, r))
  {
    if r.Bypass? {
      assert r.addr !in h.tail;
      var heir := AnElement(h.nodes[r.addr].nexts);
      SkipPasses(h, r.addr, heir);
      EndsPass(g, h, Apply(h, r), heir, r.addr);
    } else {
      var toPrev := r.Absorb? || h.nodes[r.prev].instrumented != {};
      var keep, drop := Kept(r.prev, r.next, toPrev), Dropped(r.prev, r.next, toPrev);
      assert !Edge(h, r.prev, r.prev);
      MergedBlocks(h, r.prev, r.next, toPrev);
      PouredPasses(h, Apply(h, r), keep, drop);
      EndsPass(g, h, Apply(h, r), keep, drop);
    }
  }

  /** Over every run the head and the tails are those of the original. */
  lemma {:induction false} RunKeepsEnds(tr: seq<Graph>)
    requires IsRun(tr) && WellFormed(tr[0]) && OwnAddrs(tr[0])
    ensures EndsKept(tr[0], tr[|tr| - 1])
  {
    var g := tr[0];
    if |tr| == 1 {
      forall t | t in g.tail
        ensures InSomeTail(g, t) && HoldsSomeTail(g, g, t)
      {
        assert Contains(g, t, t);
      }
    } else {
      var front := tr[..|tr| - 1];
      var h := tr[|tr| - 2];
      RunKeepsEnds(front);
      RunPreservesWellFormed(front);
      assert Step(tr[|tr| - 2], tr[|tr| - 2 + 1]);
      var r :| Enabled(h, r) && tr[|tr| - 1] == Apply(h, r);
      RuleKeepsEnds(g, h, r);
    }
  }
}
