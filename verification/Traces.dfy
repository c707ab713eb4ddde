/** When the lines that a trace is taken to have passed quietly are the right ones: the forward
    labels name blocks, and a trace names addresses (bin/symbolizer/addr_line_mapper.py:31-50). */
module Traces {
  import opened FlowGraph
  import opened GraphPayload
  import opened GraphSearch
  import opened SetChoice
  import opened BlockBuilder
  import opened AddressMap

  // ---------- Executions pass the keys ----------

  /** Every path from the head to a traced address leads through the block that owns it in `h`. */
  ghost predicate Guarded(g: Graph, h: Graph) {
    forall b, x, p | Owns(h, b, x) && PathFromTo(g, p, g.head, x) :: b in p
  }

  lemma {:induction false} GuardedSelf(g: Graph)
    requires OwnKeysOnly(g)
    ensures Guarded(g, g)
  {
    forall b, x, p | Owns(g, b, x) && PathFromTo(g, p, g.head, x)
      ensures b in p
    {
      assert x == b;
    }
  }

  /** A path to a block with a single predecessor comes from that predecessor. */
  lemma {:induction false} EntersThrough(g: Graph, h: Graph, p: seq<Addr>, prev: Addr, next: Addr)
    requires Shortcut(g, h) && Linked(h) && g.head in h.nodes && next in h.nodes && h.nodes[next].prevs == {prev}
    requires PathFromTo(g, p, g.head, next) && next !in p[..|p| - 1] && next != g.head
    ensures prev in p
  {
    var i: nat := |p| - 2;
    while p[i] !in h.nodes
      invariant 0 <= i <= |p| - 2
      invariant forall k | i < k < |p| - 1 :: p[k] !in h.nodes
      decreases i
    {
      i := i - 1;
    }
    var q := p[i..];
    PathDrop(g, p, i);
    forall k | 0 < k < |q| - 1
      ensures q[k] in g.nodes.Keys - h.nodes.Keys
    {
      assert q[k] == p[i + k];
    }
    assert PathFromTo(g, q, p[i], next) && ThroughOnly(q, g.nodes.Keys - h.nodes.Keys);
    assert p[i] == p[..|p| - 1][i];
    assert Detour(g, g.nodes.Keys - h.nodes.Keys, p[i], next);
    assert Edge(h, p[i], next) && BackEdge(h, p[i], next);
  }

  lemma {:induction false} PathTake(g: Graph, p: seq<Addr>, i: nat)
    requires IsPath(g, p) && i < |p|
    ensures IsPath(g, p[..i + 1])
  {
    var q := p[..i + 1];
    forall k | 0 <= k < |q| - 1
      ensures Edge(g, q[k], q[k + 1])
    {
      assert Edge(g, p[k], p[k + 1]);
    }
  }

  /** What goes from `next` to its one predecessor stays guarded. */
  lemma {:induction false} GuardMoves(g: Graph, h: Graph, prev: Addr, next: Addr, x: Addr, p: seq<Addr>)
    requires Shortcut(g, h) && WellFormed(h) && HeadHasNoPrevs(h) && h.head == g.head && Guarded(g, h)
    requires Edge(h, prev, next) && next in h.nodes && |h.nodes[next].prevs| == 1
    requires Owns(h, next, x) && PathFromTo(g, p, g.head, x)
    ensures prev in p
  {
    assert BackEdge(h, prev, next);
    OnlyElement(h.nodes[next].prevs, prev);
    assert next in p;
    var i := FirstAt(p, next);
    var front := p[..i + 1];
    PathTake(g, p, i);
    assert front[..|front| - 1] == p[..i];
    EntersThrough(g, h, front, prev, next);
  }

  lemma {:induction false} MergeOwners(h: Graph, prev: Addr, next: Addr, toPrev: bool, b: Addr, x: Addr)
    requires prev in h.nodes && next in h.nodes && prev != next
    requires Owns(WithoutSelfLoops(Merge(h, prev, next, toPrev)), b, x)
    ensures Owns(h, b, x) || (b == Kept(prev, next, toPrev) && Owns(h, Dropped(prev, next, toPrev), x))
  {
    MergedBlocks(h, prev, next, toPrev);
  }

  lemma {:induction false} GuardedStep(g: Graph, h: Graph, r: Rule)
    requires Shortcut(g, h) && WellFormed(h) && HeadHasNoPrevs(h) && h.head == g.head && Guarded(g, h) && Enabled(h, r)
    ensures Guarded(g, Apply(h, r)) && Apply(h, r).head == g.head
  {
    if r.Bypass? {
      assert forall b, x :: Owns(Apply(h, r), b, x) ==> Owns(h, b, x);
    } else {
      var toPrev := r.Absorb? || h.nodes[r.prev].instrumented != {};
      assert !Edge(h, r.prev, r.prev) && BackEdge(h, r.prev, r.next);
      forall b, x, p | Owns(Apply(h, r), b, x) && PathFromTo(g, p, g.head, x)
        ensures b in p
      {
        MergeOwners(h, r.prev, r.next, toPrev, b, x);
        if !Owns(h, b, x) {
          GuardMoves(g, h, r.prev, r.next, x, p);
        }
      }
    }
  }

  lemma {:induction false} RunGuards(tr: seq<Graph>)
    requires IsRun(tr) && WellFormed(tr[0]) && OwnKeysOnly(tr[0]) && HeadHasNoPrevs(tr[0])
    ensures Guarded(tr[0], tr[|tr| - 1]) && tr[|tr| - 1].head == tr[0].head
  {
    if |tr| == 1 {
      GuardedSelf(tr[0]);
    } else {
      var front := tr[..|tr| - 1];
      var h := tr[|tr| - 2];
      RunGuards(front);
      RunPreservesWellFormed(front);
      RunShortcuts(front);
      assert Step(tr[|tr| - 2], tr[|tr| - 2 + 1]);
      var r :| Enabled(h, r) && tr[|tr| - 1] == Apply(h, r);
      GuardedStep(tr[0], h, r);
    }
  }

  /** A path without the steps from a block to itself. */
  lemma {:induction false} WithoutStutter(g: Graph, p: seq<Addr>) returns (q: seq<Addr>)
    requires IsPath(g, p)
    ensures PathFromTo(WithoutSelfLoops(g), q, p[0], p[|p| - 1]) && forall a | a in q :: a in p
  {
    var h := WithoutSelfLoops(g);
    if |p| == 1 {
      q := p;
    } else {
      PathDrop(g, p, 1);
      q := WithoutStutter(g, p[1..]);
      assert Edge(g, p[0], p[0 + 1]);
      if p[0] != p[1] {
        var rest := q;
        q := [p[0]] + rest;
        assert Edge(h, p[0], p[1]);
        forall i | 0 <= i < |q| - 1
          ensures Edge(h, q[i], q[i + 1])
        {
          if i > 0 { assert Edge(h, rest[i - 1], rest[i - 1 + 1]); }
        }
      }
    }
  }

  /** On its way to a traced address, control passes the block that owns it after simplification. */
  lemma {:induction false} OwnersAreOnTheWay(r: Result, b: Addr, x: Addr, p: seq<Addr>)
    requires Sound(r) && HeadHasNoPrevs(r.original) && Owns(r.final, b, x)
    requires PathFromTo(r.original, p, r.original.head, x)
    ensures b in p
  {
    var g := WithoutSelfLoops(r.original);
    LoopsGone(r.original);
    var tr :| IsRun(tr) && tr[0] == g && tr[|tr| - 1] == r.final;
    RunGuards(tr);
    var q := WithoutStutter(r.original, p);
  }

  // ---------- Traces ----------

  /** The addresses traced in the given blocks. */
  ghost function TracedIn(g: Graph, keys: set<Addr>): set<Addr> {
    set b, x | b in keys && b in g.nodes && x in g.nodes[b].instrumented :: x
  }

  /** Only traced addresses occur in the trace, and with an address the key of its block, if that
      is traced itself. */
  ghost predicate Plausible(r: Result, trace: seq<Addr>) {
    && (forall a | a in trace && a in r.original.nodes :: r.original.nodes[a].instrumented != {})
    && forall b, x | x in trace && Owns(r.final, b, x) && Owns(r.final, b, b) :: b in trace
  }

  /** The trace of an execution that takes the path `p` through the function. */
  ghost predicate IsTraceOf(g: Graph, p: seq<Addr>, trace: seq<Addr>) {
    && IsPath(g, p) && p[0] == g.head
    && forall a | a in g.nodes :: a in trace <==> a in p && g.nodes[a].instrumented != {}
  }

  lemma {:induction false} OwnedIsTracedKey(r: Result, b: Addr, x: Addr)
    requires Sound(r) && Owns(r.final, b, x)
    ensures x in r.original.nodes && r.original.nodes[x].instrumented == {x}
  {
    ContributionCovers(r);
    InstrumentedIsOwned(r.original, x);
    InstrumentedIsOwned(r.final, x);
    FinalOwners(r, b, x);
    var a :| Owns(r.original, a, x);
    OwnFallback(r, a);
  }

  /** If nothing jumps back to the head, executions leave plausible traces. */
  lemma {:induction false} ExecutionsArePlausible(r: Result, p: seq<Addr>, trace: seq<Addr>)
    requires Sound(r) && HeadHasNoPrevs(r.original) && IsTraceOf(r.original, p, trace)
    ensures Plausible(r, trace)
  {
    forall b, x | x in trace && Owns(r.final, b, x) && Owns(r.final, b, b)
      ensures b in trace
    {
      OwnedIsTracedKey(r, b, x);
      OwnedIsTracedKey(r, b, b);
      var i :| 0 <= i < |p| && p[i] == x;
      PathTake(r.original, p, i);
      OwnersAreOnTheWay(r, b, x, p[..i + 1]);
    }
  }

  /** A surviving block with a traced key still owns it. */
  lemma {:induction false} SurvivorsKeepTheirKeys(r: Result, a: Addr)
    requires Sound(r) && a in r.final.nodes && r.original.nodes.Keys >= {a} && r.original.nodes[a].instrumented != {}
    ensures Owns(r.final, a, a)
  {
    var g := WithoutSelfLoops(r.original);
    OwnFallback(r, a);
    LoopsGone(r.original);
    OwnKeysAreSingleOwners(g);
    SimplificationConserves(g, r.final);
  }

  /** Reading the labels as keys is reading them as traced addresses, on all plausible traces, exactly
      if the keys of all blocks in the label are traced. */
  lemma {:induction false} LabelsAreExactIffKeysTraced(r: Result, keys: set<Addr>)
    requires Sound(r) && forall b | b in keys :: b in r.final.nodes && r.final.nodes[b].instrumented != {}
    ensures (forall trace | Plausible(r, trace) :: AnyTraced(trace, keys) <==> AnyTraced(trace, TracedIn(r.final, keys)))
            <==> forall b | b in keys :: Owns(r.final, b, b)
  {
    if forall b | b in keys :: Owns(r.final, b, b) {
      forall trace | Plausible(r, trace)
        ensures AnyTraced(trace, keys) <==> AnyTraced(trace, TracedIn(r.final, keys))
      {
        TracedKeysAreEnough(r, keys, trace);
      }
    } else {
      var b :| b in keys && !Owns(r.final, b, b);
      var trace := UntracedKeyMisses(r, keys, b);
    }
  }

  lemma {:induction false} TracedKeysAreEnough(r: Result, keys: set<Addr>, trace: seq<Addr>)
    requires Sound(r) && Plausible(r, trace) && forall b | b in keys :: Owns(r.final, b, b)
    ensures AnyTraced(trace, keys) <==> AnyTraced(trace, TracedIn(r.final, keys))
  {
    if AnyTraced(trace, keys) {
      var a :| a in trace && a in keys;
      assert a in TracedIn(r.final, keys);
    }
    if AnyTraced(trace, TracedIn(r.final, keys)) {
      var x :| x in trace && x in TracedIn(r.final, keys);
      var b :| b in keys && b in r.final.nodes && x in r.final.nodes[b].instrumented;
      assert Owns(r.final, b, x) && b in trace;
    }
  }

  /** A trace of one address, which a block without a traced key owns. */
  lemma {:induction false} UntracedKeyMisses(r: Result, keys: set<Addr>, b: Addr) returns (trace: seq<Addr>)
    requires Sound(r) && b in keys && keys <= r.final.nodes.Keys && r.final.nodes[b].instrumented != {} && !Owns(r.final, b, b)
    ensures Plausible(r, trace) && !AnyTraced(trace, keys) && AnyTraced(trace, TracedIn(r.final, keys))
  {
    var x := AnElement(r.final.nodes[b].instrumented);
    trace := [x];
    assert Owns(r.final, b, x);
    OwnedIsTracedKey(r, b, x);
    FinalOwners(r, b, x);
    forall c | Owns(r.final, c, x)
      ensures c == b
    {
      FinalOwners(r, c, x);
    }
    if x in r.final.nodes {
      SurvivorsKeepTheirKeys(r, x);
    }
    assert x in TracedIn(r.final, keys) && x in trace;
  }

  /** Then what a traced address reports over an execution is right: its lines, and those passed
      quietly unless something was traced in a block that control can reach from it. */
  lemma {:induction false} QuietLinesOfExecution(r: Result, marks: Marks, data: map<Addr, Entry>, a: Addr, x: Addr, p: seq<Addr>, trace: seq<Addr>)
    requires Sound(r) && ExactEntries(r, marks) && a in r.entries && r.final.nodes[a].instrumented != {}
    requires x in data && data[x] == r.entries[a]
    requires HeadHasNoPrevs(r.original) && IsTraceOf(r.original, p, trace)
    requires forall b | b in ForwardLabel(r.final, a) :: Owns(r.final, b, b)
    ensures LinesFor(data, trace, x) ==
            r.final.nodes[a].lines +
            if AnyTraced(trace, TracedIn(r.final, ForwardLabel(r.final, a))) then {} else QuietLines(r.final, marks, a)
  {
    ExecutionsArePlausible(r, p, trace);
    TracedKeysAreEnough(r, ForwardLabel(r.final, a), trace);
  }

  // ---------- What is passed quietly ----------

  /** All lines of the blocks on the path are among the given ones. */
  ghost predicate LinesAlong(g: Graph, p: seq<Addr>, lines: set<LineInfo>) {
    forall i, l | 0 <= i < |p| && p[i] in g.nodes && l in g.nodes[p[i]].lines :: l in lines
  }

  /** Wherever control can go from a block to a tail without meeting a traced one, the entry of the
      block has all lines of one whole way there. */
  lemma {:induction false} QuietPathIsCollected(r: Result, marks: Marks, a: Addr, x: Addr) returns (p: seq<Addr>)
    requires ExactEntries(r, marks) && a in r.entries && r.final.nodes[a].instrumented != {}
    requires Edge(r.final, a, x) && QuietToTail(r.final, x)
    ensures TailPath(r.final, p) && p[0] == x && LinesAlong(r.final, p, r.entries[a].quietLines)
  {
    assert BackExact(r.final, a, marks);
    assert TailPathWithin(r.final, marks[a], x);
    p :| TailPath(r.final, p) && p[0] == x && InsideOf(p, marks[a]);
    forall i, l | 0 <= i < |p| && p[i] in r.final.nodes && l in r.final.nodes[p[i]].lines
      ensures l in r.entries[a].quietLines
    {
      assert p[i] in marks[a];
      assert l in LinesOf(r.final, marks[a]);
    }
  }

  /** And nothing else: a line passed quietly is one of an uninstrumented block on a way to a tail
      that meets no traced block. */
  lemma {:induction false} CollectedIsQuiet(r: Result, marks: Marks, a: Addr, l: LineInfo) returns (c: Addr)
    requires ExactEntries(r, marks) && a in r.entries && l in r.entries[a].quietLines
    ensures r.final.nodes[a].instrumented != {}
    ensures c in r.final.nodes && r.final.nodes[c].instrumented == {} && l in r.final.nodes[c].lines && QuietToTail(r.final, c)
  {
    assert BackExact(r.final, a, marks);
    assert l in LinesOf(r.final, marks[a]);
    c :| c in marks[a] && c in r.final.nodes && l in r.final.nodes[c].lines;
    TailPathWithinMonotone(r.final, marks[a], r.final.nodes.Keys, c);
  }

  /** A trace that has an address of block `a` and nothing of its label reports all lines of a whole
      quiet way from each successor that has one. */
  lemma {:induction false} QuietPathIsReported(r: Result, marks: Marks, data: map<Addr, Entry>, a: Addr, x: Addr, y: Addr, trace: seq<Addr>)
    returns (p: seq<Addr>)
    requires Sound(r) && ExactEntries(r, marks) && a in r.entries && r.final.nodes[a].instrumented != {}
    requires x in trace && x in data && data[x] == r.entries[a]
    requires forall b | b in trace :: b !in ForwardLabel(r.final, a)
    requires Edge(r.final, a, y) && QuietToTail(r.final, y)
    ensures TailPath(r.final, p) && p[0] == y && LinesAlong(r.final, p, Reported(data, trace))
  {
    p := QuietPathIsCollected(r, marks, a, y);
    forall i, l | 0 <= i < |p| && p[i] in r.final.nodes && l in r.final.nodes[p[i]].lines
      ensures l in Reported(data, trace)
    {
      assert AccountsFor(data, trace, x, l);
      ReportedIs(data, trace, l);
    }
  }

  /* An instance: the head calls block 1, which is not traced and goes on to block 2, which is */

  const SHOWN: LineInfo := LineInfo("f", "f.c", 1)

  function Bare(a: int, prevs: set<Addr>, nexts: set<Addr>, instrumented: set<Addr>, lines: set<LineInfo>): Block {
    Block({Addr(a)}, prevs, nexts, instrumented, lines)
  }

  const HEAD: Block := Bare(0, {}, {Addr(1), Addr(3)}, {Addr(0)}, {})
  const QUIET_TAIL: Block := Bare(3, {Addr(0)}, {}, {}, {})

  const CALLER: Graph := Graph(Addr(0), {Addr(3)}, map[
    Addr(0) := HEAD,
    Addr(1) := Bare(1, {Addr(0)}, {Addr(2)}, {}, {SHOWN}),
    Addr(2) := Bare(2, {Addr(1)}, {}, {Addr(2)}, {}),
    Addr(3) := QUIET_TAIL])

  const ABSORBED: Graph := Graph(Addr(0), {Addr(3)}, map[
    Addr(0) := HEAD,
    Addr(1) := Block({Addr(1), Addr(2)}, {Addr(0)}, {}, {Addr(2)}, {SHOWN}),
    Addr(3) := QUIET_TAIL])

  lemma {:induction false} CallerIsSound()
    ensures Linked(CALLER) && Anchored(CALLER) && OwnKeysOnly(CALLER) && HeadHasNoPrevs(CALLER)
    ensures WithoutSelfLoops(CALLER) == CALLER
  {
    assert forall a, b :: Edge(CALLER, a, b) <==> (a == Addr(0) && b in {Addr(1), Addr(3)}) || (a == Addr(1) && b == Addr(2));
    forall a | a in CALLER.nodes
      ensures WithoutSelfLoop(CALLER.nodes[a], a) == CALLER.nodes[a]
    {
      assert a !in CALLER.nodes[a].nexts && a !in CALLER.nodes[a].prevs;
    }
    assert WithoutSelfLoops(CALLER).nodes == CALLER.nodes;
  }

  /** What merging block 2 into block 1 makes of block `a`. */
  function MergedInto(a: Addr): Block
    requires a in CALLER.nodes
  {
    WithoutSelfLoop(MergedBlock(CALLER, a, Addr(1), Source(CALLER, Addr(1), Addr(2)), Addr(2), Target(CALLER, Addr(1), Addr(2))), a)
  }

  lemma {:induction false} OthersStay()
    ensures MergedInto(Addr(0)) == HEAD && MergedInto(Addr(3)) == QUIET_TAIL
  {
  }

  lemma {:induction false} HeirGrows()
    ensures MergedInto(Addr(1)) == Block({Addr(1), Addr(2)}, {Addr(0)}, {}, {Addr(2)}, {SHOWN})
  {
    var source, target := Source(CALLER, Addr(1), Addr(2)), Target(CALLER, Addr(1), Addr(2));
    assert source.nexts == {} && target.prevs == {} && target.nexts == {};
  }

  /** An absorbed block that is neither head nor tail changes nothing but blocks. */
  lemma {:induction false} AbsorbedGraph(g: Graph, prev: Addr, next: Addr, h: Graph)
    requires Enabled(g, Absorb(prev, next)) && prev in g.nodes && prev != next && next != g.head && next !in g.tail
    requires h.head == g.head && h.tail == g.tail && h.nodes.Keys == g.nodes.Keys - {next}
    requires forall a | a in h.nodes ::
      h.nodes[a] == WithoutSelfLoop(MergedBlock(g, a, prev, Source(g, prev, next), next, Target(g, prev, next)), a)
    ensures Apply(g, Absorb(prev, next)) == h
  {
    assert Apply(g, Absorb(prev, next)).nodes == h.nodes;
  }

  lemma {:induction false} CallerIsEnabled()
    ensures Enabled(CALLER, Absorb(Addr(1), Addr(2)))
  {
  }

  lemma {:induction false} EachIsMerged()
    ensures ABSORBED.nodes.Keys == CALLER.nodes.Keys - {Addr(2)}
    ensures forall a | a in ABSORBED.nodes :: ABSORBED.nodes[a] == MergedInto(a)
  {
    OthersStay();
    HeirGrows();
    forall a | a in ABSORBED.nodes
      ensures ABSORBED.nodes[a] == MergedInto(a)
    {
      assert a == Addr(0) || a == Addr(1) || a == Addr(3);
    }
  }

  lemma {:induction false} CallerAbsorbs()
    ensures Enabled(CALLER, Absorb(Addr(1), Addr(2))) && Apply(CALLER, Absorb(Addr(1), Addr(2))) == ABSORBED
  {
    CallerIsEnabled();
    EachIsMerged();
    AbsorbedGraph(CALLER, Addr(1), Addr(2), ABSORBED);
  }

  lemma {:induction false} AbsorbedIsNormal()
    ensures NormalForm(ABSORBED)
  {
    var h := ABSORBED;
    assert forall a, b :: Edge(h, a, b) <==> a == Addr(0) && b in {Addr(1), Addr(3)};
    assert |h.nodes[Addr(0)].nexts| == 2;
    assert SHOWN in h.nodes[Addr(1)].lines;
  }

  lemma {:induction false} CallerDerives()
    ensures Derives(WithoutSelfLoops(CALLER), ABSORBED)
  {
    CallerIsSound();
    CallerAbsorbs();
    DerivesSelf(CALLER);
    assert Step(CALLER, ABSORBED);
    DerivesStep(CALLER, CALLER, ABSORBED);
  }

  lemma {:induction false} CallerRuns(p: seq<Addr>, trace: seq<Addr>)
    requires p == [Addr(0), Addr(1), Addr(2)] && trace == [Addr(0), Addr(2)]
    ensures IsTraceOf(CALLER, p, trace)
    ensures !AnyTraced(trace, {Addr(1)}) && AnyTraced(trace, TracedIn(ABSORBED, {Addr(1)}))
  {
    assert Edge(CALLER, p[0], p[0 + 1]) && Edge(CALLER, p[1], p[1 + 1]);
    forall a | a in CALLER.nodes
      ensures a in trace <==> a in p && CALLER.nodes[a].instrumented != {}
    {
      assert a == p[0] || a == p[1] || a == p[2] || a == Addr(3);
      assert trace[0] == Addr(0) && trace[1] == Addr(2);
    }
    assert Addr(2) in ABSORBED.nodes[Addr(1)].instrumented;
    assert trace[1] in TracedIn(ABSORBED, {Addr(1)});
  }

  /** Block 2 is merged into block 1.  An execution that traces 0 and 2 has not passed quietly, but
      the label of the head is 1, which no trace contains. */
  lemma {:induction false} UntracedKeyExample(r: Result)
    requires r.original == CALLER && r.final == ABSORBED && r.entries.Keys == ABSORBED.nodes.Keys
    requires forall a | a in r.entries :: r.entries[a].lines == r.final.nodes[a].lines && !r.entries[a].fallback
    ensures Sound(r) && NormalForm(r.final) && HeadHasNoPrevs(r.original)
    ensures IsTraceOf(r.original, [Addr(0), Addr(1), Addr(2)], [Addr(0), Addr(2)])
    ensures ForwardLabel(r.final, Addr(0)) == {Addr(1)}
    ensures !AnyTraced([Addr(0), Addr(2)], {Addr(1)}) && AnyTraced([Addr(0), Addr(2)], TracedIn(r.final, {Addr(1)}))
  {
    CallerIsSound();
    CallerDerives();
    AbsorbedIsNormal();
    HeadReachesOne();
    CallerRuns([Addr(0), Addr(1), Addr(2)], [Addr(0), Addr(2)]);
  }

  lemma {:induction false} HeadReachesOne()
    ensures ForwardLabel(ABSORBED, Addr(0)) == {Addr(1)}
  {
    var h := ABSORBED;
    assert PathFromTo(h, [Addr(0), Addr(1)], Addr(0), Addr(1));
    assert forall x :: x in ForwardLabel(h, Addr(0)) ==> x in h.nodes && x != Addr(0) && h.nodes[x].instrumented != {};
  }
}
