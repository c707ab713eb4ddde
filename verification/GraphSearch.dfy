/** What the two depth-first searches over a simplified graph are to compute. */
module GraphSearch {
  import opened FlowGraph
  import opened GraphPayload

  /** The instrumented blocks among the given keys. */
  function Instrumented(g: Graph, keys: set<Addr>): set<Addr> {
    set x | x in keys && x in g.nodes && g.nodes[x].instrumented != {}
  }

  /** The keys of the other instrumented blocks that can be reached. */
  ghost function ReachableInstrumented(g: Graph, a: Addr): set<Addr> {
    set x | x in g.nodes && x != a && g.nodes[x].instrumented != {} && Reach(g, a, x)
  }

  /** What the forward search adds to a block: nothing unless the block is instrumented. */
  ghost function ForwardLabel(g: Graph, a: Addr): set<Addr> {
    if a in g.nodes && g.nodes[a].instrumented != {} then ReachableInstrumented(g, a) else {}
  }

  /** The label of an instrumented survivor, read in the graph before simplification: the other
      instrumented survivors that control could already reach there. */
  lemma {:induction false} ForwardLabelInOriginal(g: Graph, h: Graph, a: Addr, x: Addr)
    requires Linked(g) && Anchored(g) && Derives(WithoutSelfLoops(g), h)
    requires a in h.nodes && h.nodes[a].instrumented != {}
    ensures x in ForwardLabel(h, a) <==> x != a && x in h.nodes && h.nodes[x].instrumented != {} && Reach(g, a, x)
  {
    if x in h.nodes { SimplificationPreservesReachability(g, h, a, x); }
  }

  type Marks = map<Addr, set<Addr>>

  ghost function AddLabel(marks: Marks, a: Addr, more: set<Addr>): Marks
    requires a in marks
  {
    marks[a := marks[a] + more]
  }

  ghost predicate AllReachable(g: Graph, a: Addr, s: set<Addr>) {
    forall x {:trigger Reach(g, a, x)} | x in s :: Reach(g, a, x)
  }

  /** The successors of `x` are all in `s`. */
  ghost predicate Closed(g: Graph, x: Addr, s: set<Addr>) {
    x in g.nodes && g.nodes[x].nexts <= s
  }

  /** What a search from `a` adds to the visited set: reachable blocks, with their successors. */
  ghost predicate Explored(g: Graph, a: Addr, visited: set<Addr>, visited': set<Addr>) {
    && visited <= visited' <= g.nodes.Keys && AllReachable(g, a, visited' - visited)
    && forall x {:trigger Closed(g, x, visited')} | x in visited' && x !in visited :: Closed(g, x, visited')
  }

  /** The same while the search has dealt with only some successors of `a`. */
  ghost predicate ExploredBut(g: Graph, a: Addr, visited: set<Addr>, visited': set<Addr>, done: set<Addr>) {
    && visited <= visited' <= g.nodes.Keys && AllReachable(g, a, visited' - visited) && done <= visited'
    && forall x {:trigger Closed(g, x, visited')} | x in visited' && x !in visited && x != a :: Closed(g, x, visited')
  }

  lemma {:induction false} StartExploring(g: Graph, a: Addr, visited: set<Addr>)
    requires a in g.nodes && visited <= g.nodes.Keys && a !in visited
    ensures ExploredBut(g, a, visited, visited + {a}, {})
  {
    ReachSelf(g, a);
  }

  lemma {:induction false} ExploredFurther(g: Graph, a: Addr, n: Addr, visited: set<Addr>, before: set<Addr>, after: set<Addr>, done: set<Addr>)
    requires Linked(g) && Edge(g, a, n) && a in before
    requires ExploredBut(g, a, visited, before, done) && Explored(g, n, before, after) && n in after
    ensures ExploredBut(g, a, visited, after, done + {n})
  {
    ReachStep(g, a, n);
    forall x | x in after - visited
      ensures Reach(g, a, x)
    {
      if x in before {
        assert x in before - visited;
      } else {
        assert x in after - before;
        ReachTransitive(g, a, n, x);
      }
    }
    forall x | x in after && x !in visited && x != a
      ensures Closed(g, x, after)
    {
      if x in before {
        assert Closed(g, x, before);
      }
    }
  }

  /** A search with nothing visited before finds exactly what is reachable. */
  lemma {:induction false} ExploredIsReachable(g: Graph, a: Addr, s: set<Addr>)
    requires a in s && Explored(g, a, {}, s)
    ensures forall x :: Reach(g, a, x) <==> x in s
  {
    forall x | x in s
      ensures Reach(g, a, x)
    {
      assert x in s - {};
    }
    forall x, y | x in s && Edge(g, x, y)
      ensures y in s
    {
      assert Closed(g, x, s);
    }
    forall x | Reach(g, a, x)
      ensures x in s
    {
      var p :| PathFromTo(g, p, a, x);
      ClosedHoldsPath(g, s, p);
    }
  }

  lemma {:induction false} ClosedHoldsPath(g: Graph, s: set<Addr>, p: seq<Addr>)
    requires forall x, y | x in s && Edge(g, x, y) :: y in s
    requires IsPath(g, p) && p[0] in s
    ensures p[|p| - 1] in s
  {
    if |p| > 1 {
      assert Edge(g, p[0], p[0 + 1]);
      PathDrop(g, p, 1);
      ClosedHoldsPath(g, s, p[1..]);
    }
  }

  // ---------- Backward search ----------

  /** A path of uninstrumented blocks that ends in a tail. */
  ghost predicate TailPath(g: Graph, p: seq<Addr>) {
    IsPath(g, p) && AllUninstrumented(g, p) && p[|p| - 1] in g.tail
  }

  ghost predicate InsideOf(p: seq<Addr>, s: set<Addr>) {
    forall i | 0 <= i < |p| :: p[i] in s
  }

  /** Some uninstrumented path from `x` to a tail stays inside `s`. */
  ghost predicate TailPathWithin(g: Graph, s: set<Addr>, x: Addr) {
    exists p :: TailPath(g, p) && p[0] == x && InsideOf(p, s)
  }

  /** `x` reaches a tail without meeting any instrumentation. */
  ghost predicate QuietToTail(g: Graph, x: Addr) {
    TailPathWithin(g, g.nodes.Keys, x)
  }

  ghost predicate AllQuietInside(g: Graph, s: set<Addr>) {
    forall x {:trigger TailPathWithin(g, s, x)} | x in s :: TailPathWithin(g, s, x)
  }

  lemma {:induction false} TailPathWithinMonotone(g: Graph, s: set<Addr>, t: set<Addr>, x: Addr)
    requires TailPathWithin(g, s, x) && s <= t
    ensures TailPathWithin(g, t, x)
  {
    var p :| TailPath(g, p) && p[0] == x && InsideOf(p, s);
    assert InsideOf(p, t);
  }

  lemma {:induction false} AllQuietUnion(g: Graph, s: set<Addr>, t: set<Addr>)
    requires AllQuietInside(g, s) && AllQuietInside(g, t)
    ensures AllQuietInside(g, s + t)
  {
    forall x | x in s + t
      ensures TailPathWithin(g, s + t, x)
    {
      if x in s {
        TailPathWithinMonotone(g, s, s + t, x);
      } else {
        TailPathWithinMonotone(g, t, s + t, x);
      }
    }
  }

  lemma {:induction false} TailPathPrepend(g: Graph, s: set<Addr>, a: Addr, x: Addr)
    requires TailPathWithin(g, s, x) && Edge(g, a, x) && g.nodes[a].instrumented == {}
    ensures TailPathWithin(g, s + {a}, a)
  {
    var p :| TailPath(g, p) && p[0] == x && InsideOf(p, s);
    var q := [a] + p;
    forall i | 0 <= i < |q| - 1
      ensures Edge(g, q[i], q[i + 1])
    {
      if i > 0 { assert Edge(g, p[i - 1], p[i - 1 + 1]); }
    }
    assert TailPath(g, q) && InsideOf(q, s + {a});
  }

  /** A tail, or an uninstrumented predecessor of a visited block, may be visited next. */
  lemma {:induction false} EnterQuiet(g: Graph, visited: set<Addr>, a: Addr)
    requires AllQuietInside(g, visited) && a in g.nodes && g.nodes[a].instrumented == {}
    requires a in g.tail || exists x :: x in visited && Edge(g, a, x)
    ensures AllQuietInside(g, visited + {a})
  {
    if a in g.tail {
      assert TailPath(g, [a]) && InsideOf([a], visited + {a});
    } else {
      var x :| x in visited && Edge(g, a, x);
      TailPathPrepend(g, visited, a, x);
    }
    forall x | x in visited
      ensures TailPathWithin(g, visited + {a}, x)
    {
      TailPathWithinMonotone(g, visited, visited + {a}, x);
    }
  }

  /** What the backward search may have put into a block: quiet paths to tails, complete, and
      never without a successor of the block among them. */
  ghost predicate GoodBackLabel(g: Graph, n: Addr, marks: set<Addr>) {
    && marks <= g.nodes.Keys
    && AllQuietInside(g, marks)
    && (marks != {} ==> exists x :: Edge(g, n, x) && x in marks)
  }

  ghost predicate GoodMarks(g: Graph, marks: Marks) {
    marks.Keys == g.nodes.Keys && forall a {:trigger GoodBackLabel(g, a, marks[a])} | a in marks ::
      GoodBackLabel(g, a, marks[a])
  }

  ghost predicate Grown(g: Graph, marks: Marks, marks': Marks) {
    && marks'.Keys == marks.Keys == g.nodes.Keys
    && forall a {:trigger GrownAt(g, a, marks, marks')} | a in g.nodes :: GrownAt(g, a, marks, marks')
  }

  /** Marks are only ever added, and only to instrumented blocks. */
  ghost predicate GrownAt(g: Graph, a: Addr, marks: Marks, marks': Marks)
    requires a in g.nodes && a in marks && a in marks'
  {
    marks[a] <= marks'[a] && (g.nodes[a].instrumented == {} ==> marks'[a] == marks[a])
  }

  /** The predecessor `p` has heard of `x`: it is visited, or `x` is among its marks. */
  ghost predicate Told(g: Graph, p: Addr, x: Addr, visited: set<Addr>, marks: Marks) {
    p in g.nodes && p in marks &&
    if g.nodes[p].instrumented == {} then p in visited else x in marks[p]
  }

  ghost predicate AllTold(g: Graph, x: Addr, visited: set<Addr>, marks: Marks) {
    forall p | Edge(g, p, x) :: Told(g, p, x, visited, marks)
  }

  /** All blocks visited since `before` are done with. */
  ghost predicate Finished(g: Graph, before: set<Addr>, visited: set<Addr>, marks: Marks) {
    forall x {:trigger AllTold(g, x, visited, marks)} | x in visited && x !in before :: AllTold(g, x, visited, marks)
  }

  /** What one call of the backward search does to the visited set and to all marks. */
  ghost predicate Searched(g: Graph, visited: set<Addr>, marks: Marks, visited': set<Addr>, marks': Marks) {
    && visited <= visited' <= g.nodes.Keys && AllQuietInside(g, visited')
    && GoodMarks(g, marks') && Grown(g, marks, marks')
    && Finished(g, visited, visited', marks')
  }

  /** The search stands at a tail, or has come to `a` from one of its visited successors. */
  ghost predicate MayEnter(g: Graph, visited: set<Addr>, a: Addr) {
    (visited == {} && a in g.tail) || exists x :: x in visited && Edge(g, a, x)
  }

  ghost predicate SearchState(g: Graph, visited: set<Addr>, marks: Marks) {
    visited <= g.nodes.Keys && AllQuietInside(g, visited) && GoodMarks(g, marks)
  }

  lemma {:induction false} QuietIsUninstrumented(g: Graph, s: set<Addr>, x: Addr)
    requires AllQuietInside(g, s) && x in s
    ensures x in g.nodes && g.nodes[x].instrumented == {}
  {
    assert TailPathWithin(g, s, x);
    var p :| TailPath(g, p) && p[0] == x && InsideOf(p, s);
  }

  lemma {:induction false} NothingSearched(g: Graph, v: set<Addr>, m: Marks)
    requires v <= g.nodes.Keys && AllQuietInside(g, v) && GoodMarks(g, m)
    ensures Searched(g, v, m, v, m)
  {
  }

  lemma {:induction false} MarksTaken(g: Graph, v: set<Addr>, m: Marks, a: Addr)
    requires v <= g.nodes.Keys && AllQuietInside(g, v) && GoodMarks(g, m)
    requires a in g.nodes && g.nodes[a].instrumented != {}
    requires v != {} ==> exists x :: x in v && Edge(g, a, x)
    ensures Searched(g, v, m, v, m[a := m[a] + v])
  {
    assert GoodBackLabel(g, a, m[a]);
    AllQuietUnion(g, m[a], v);
    var m' := m[a := m[a] + v];
    forall b | b in m'
      ensures GoodBackLabel(g, b, m'[b])
    {
      assert GoodBackLabel(g, b, m[b]);
    }
  }

  /** All predecessors in `told` have heard of `x`. */
  ghost predicate ToldSet(g: Graph, told: set<Addr>, x: Addr, visited: set<Addr>, marks: Marks) {
    forall p {:trigger p in told} | p in told :: Told(g, p, x, visited, marks)
  }

  lemma {:induction false} ToldOneMore(g: Graph, told: set<Addr>, p: Addr, x: Addr, v: set<Addr>, m: Marks)
    requires ToldSet(g, told, x, v, m) && Told(g, p, x, v, m)
    ensures ToldSet(g, told + {p}, x, v, m)
  {
  }

  lemma {:induction false} AllPrevsTold(g: Graph, x: Addr, told: set<Addr>, v: set<Addr>, m: Marks)
    requires Linked(g) && x in g.nodes && g.nodes[x].prevs <= told && ToldSet(g, told, x, v, m)
    ensures AllTold(g, x, v, m)
  {
    forall p | Edge(g, p, x)
      ensures Told(g, p, x, v, m)
    {
      assert BackEdge(g, p, x) && p in told;
    }
  }

  lemma {:induction false} ToldGrows(g: Graph, told: set<Addr>, x: Addr, v: set<Addr>, m: Marks, v': set<Addr>, m': Marks)
    requires Searched(g, v, m, v', m') && ToldSet(g, told, x, v, m)
    ensures ToldSet(g, told, x, v', m')
  {
    forall p | p in told
      ensures Told(g, p, x, v', m')
    {
      assert Told(g, p, x, v, m) && GrownAt(g, p, m, m');
    }
  }

  lemma {:induction false} SearchedTwice(g: Graph, v: set<Addr>, m: Marks, v1: set<Addr>, m1: Marks, v2: set<Addr>, m2: Marks)
    requires Searched(g, v, m, v1, m1) && Searched(g, v1, m1, v2, m2)
    ensures Searched(g, v, m, v2, m2)
  {
    forall a | a in g.nodes
      ensures GrownAt(g, a, m, m2)
    {
      assert GrownAt(g, a, m, m1) && GrownAt(g, a, m1, m2);
    }
    forall x | x in v2 && x !in v
      ensures AllTold(g, x, v2, m2)
    {
      if x in v1 {
        assert AllTold(g, x, v1, m1);
        forall p | Edge(g, p, x)
          ensures Told(g, p, x, v2, m2)
        {
          assert Told(g, p, x, v1, m1) && GrownAt(g, p, m1, m2);
        }
      }
    }
  }

  lemma {:induction false} SearchedAll(g: Graph, v: set<Addr>, a: Addr, m: Marks, v': set<Addr>, m': Marks)
    requires a !in v && Searched(g, v + {a}, m, v', m')
    requires AllTold(g, a, v', m')
    ensures Searched(g, v, m, v', m')
  {
    forall x | x in v' && x !in v
      ensures AllTold(g, x, v', m')
    {
      assert x == a || x !in v + {a};
    }
  }

  /** If all tails and all uninstrumented predecessors are finished, so is all that is quiet. */
  lemma {:induction false} QuietIsFinished(g: Graph, done: set<Addr>, p: seq<Addr>)
    requires TailPath(g, p) && p[|p| - 1] in done
    requires forall a, x | x in done && Edge(g, a, x) && g.nodes[a].instrumented == {} :: a in done
    ensures p[0] in done
  {
    if |p| > 1 {
      PathDrop(g, p, 1);
      assert forall i | 0 <= i < |p| - 1 :: p[1..][i] == p[i + 1];
      assert AllUninstrumented(g, p[1..]);
      QuietIsFinished(g, done, p[1..]);
      assert Edge(g, p[0], p[0 + 1]);
    }
  }

  /** Quiet blocks that reach one of the given tails are marked at all their instrumented
      predecessors. */
  ghost predicate TailsDone(g: Graph, tails: set<Addr>, marks: Marks) {
    && marks.Keys == g.nodes.Keys
    && forall p, n {:trigger TailPath(g, p), Edge(g, n, p[0])} |
         TailPath(g, p) && p[|p| - 1] in tails && Edge(g, n, p[0]) && g.nodes[n].instrumented != {} ::
           p[0] in marks[n]
  }

  /** One more tail has been searched from, with a fresh visited set. */
  lemma {:induction false} TailDone(g: Graph, tails: set<Addr>, t: Addr, marks: Marks, visited: set<Addr>, marks': Marks)
    requires TailsDone(g, tails, marks) && t in g.nodes
    requires Searched(g, {}, marks, visited, marks')
    requires g.nodes[t].instrumented == {} ==> t in visited
    ensures TailsDone(g, tails + {t}, marks')
  {
    forall p, n | TailPath(g, p) && p[|p| - 1] in tails + {t} && Edge(g, n, p[0]) && g.nodes[n].instrumented != {}
      ensures p[0] in marks'[n]
    {
      assert GrownAt(g, n, marks, marks');
      if p[|p| - 1] == t {
        forall a, x | x in visited && Edge(g, a, x) && g.nodes[a].instrumented == {}
          ensures a in visited
        {
          assert AllTold(g, x, visited, marks') && Told(g, a, x, visited, marks');
        }
        QuietIsFinished(g, visited, p);
        assert AllTold(g, p[0], visited, marks') && Told(g, n, p[0], visited, marks');
      }
    }
  }

  /** The label of an instrumented block: only quiet paths to tails; it holds every quiet
      successor together with a whole path from there; it is empty when there is none. */
  ghost predicate BackLabelExact(g: Graph, n: Addr, marks: set<Addr>) {
    && (forall x | x in marks :: x in g.nodes && g.nodes[x].instrumented == {} && TailPathWithin(g, marks, x))
    && (forall x | Edge(g, n, x) && QuietToTail(g, x) :: x in marks && TailPathWithin(g, marks, x))
    && (marks != {} <==> exists x :: Edge(g, n, x) && QuietToTail(g, x))
  }

  lemma {:induction false} SearchedFromAllTails(g: Graph, marks: Marks, n: Addr)
    requires GoodMarks(g, marks) && TailsDone(g, g.tail, marks)
    requires n in g.nodes && g.nodes[n].instrumented != {}
    ensures BackLabelExact(g, n, marks[n])
  {
    assert GoodBackLabel(g, n, marks[n]);
    forall x | x in marks[n]
      ensures g.nodes[x].instrumented == {} && TailPathWithin(g, marks[n], x)
    {
      QuietIsUninstrumented(g, marks[n], x);
      assert TailPathWithin(g, marks[n], x);
    }
    forall x | Edge(g, n, x) && QuietToTail(g, x)
      ensures x in marks[n]
    {
      var p :| TailPath(g, p) && p[0] == x && InsideOf(p, g.nodes.Keys);
    }
    if marks[n] != {} {
      var x :| Edge(g, n, x) && x in marks[n];
      TailPathWithinMonotone(g, marks[n], g.nodes.Keys, x);
    }
  }

  lemma {:induction false} GrownTwice(g: Graph, m: Marks, m1: Marks, m2: Marks)
    requires Grown(g, m, m1) && Grown(g, m1, m2)
    ensures Grown(g, m, m2)
  {
    forall a | a in g.nodes
      ensures GrownAt(g, a, m, m2)
    {
      assert GrownAt(g, a, m, m1) && GrownAt(g, a, m1, m2);
    }
  }

  /** What the backward search leaves in block `a`: an exact label, or nothing. */
  ghost predicate BackExact(g: Graph, a: Addr, marks: Marks)
    requires a in g.nodes && a in marks
  {
    if g.nodes[a].instrumented == {} then marks[a] == {} else BackLabelExact(g, a, marks[a])
  }

  ghost predicate AllBackExact(g: Graph, marks: Marks) {
    marks.Keys == g.nodes.Keys && forall a {:trigger BackExact(g, a, marks)} | a in g.nodes :: BackExact(g, a, marks)
  }

  ghost predicate MarksInside(g: Graph, marks: Marks) {
    forall a | a in marks :: marks[a] <= g.nodes.Keys
  }

  lemma {:induction false} ExactMarksInside(g: Graph, marks: Marks)
    requires AllBackExact(g, marks)
    ensures MarksInside(g, marks)
  {
    forall a | a in marks
      ensures marks[a] <= g.nodes.Keys
    {
      assert BackExact(g, a, marks);
    }
  }

  /** After the tails in `done` have been searched from. */
  ghost predicate SearchedTails(g: Graph, done: set<Addr>, start: Marks, marks: Marks) {
    GoodMarks(g, marks) && Grown(g, start, marks) && TailsDone(g, done, marks)
  }

  lemma {:induction false} SearchedOneMoreTail(g: Graph, done: set<Addr>, t: Addr, start: Marks, marks: Marks,
                            visited: set<Addr>, marks': Marks)
    requires SearchedTails(g, done, start, marks) && t in g.nodes
    requires Searched(g, {}, marks, visited, marks')
    requires g.nodes[t].instrumented == {} ==> t in visited
    ensures SearchedTails(g, done + {t}, start, marks')
  {
    GrownTwice(g, start, marks, marks');
    TailDone(g, done, t, marks, visited, marks');
  }

  lemma {:induction false} NoTailsYet(g: Graph, marks: Marks)
    requires marks.Keys == g.nodes.Keys && forall a | a in marks :: marks[a] == {}
    ensures SearchedTails(g, {}, marks, marks)
  {
  }

  lemma {:induction false} AllTailsSearched(g: Graph, done: set<Addr>, start: Marks, marks: Marks)
    requires SearchedTails(g, done, start, marks) && g.tail <= done
    requires forall a | a in start :: start[a] == {}
    ensures AllBackExact(g, marks)
  {
    forall a | a in g.nodes
      ensures BackExact(g, a, marks)
    {
      assert GrownAt(g, a, start, marks);
      if g.nodes[a].instrumented != {} {
        SearchedFromAllTails(g, marks, a);
      }
    }
  }

  ghost function LinesOf(g: Graph, keys: set<Addr>): set<LineInfo> {
    set a, l | a in keys && a in g.nodes && l in g.nodes[a].lines :: l
  }

  /** The lines of the quiet blocks, for instrumented blocks only. */
  ghost function QuietLines(g: Graph, marks: Marks, a: Addr): set<LineInfo> {
    if a in g.nodes && a in marks && g.nodes[a].instrumented != {} then LinesOf(g, marks[a]) else {}
  }
}
