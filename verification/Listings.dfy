/** The address map from the disassembler's listings on: build each graph, give its blocks their
    source lines, analyse it, and put the functions together (bin/symbolizer/cfg_analyzer.py:48-552). */
module Listings {
  import opened Options
  import opened FlowGraph
  import opened SetChoice
  import opened CfgSimplifier
  import opened BlockBuilder
  import opened AddressMap
  import opened GraphSearch
  import opened GraphPayload

  /** One region of the disassembly. */
  datatype Function = Function(name: string, code: seq<Instruction>)

  /** What the symbolizer says about an address; nothing, if it reports an error. */
  type Symbolizer = Addr -> Option<LineInfo>

  // ---------- Source lines ----------

  function LineAt(symbols: Symbolizer, a: Addr): set<LineInfo> {
    if symbols(a).Some? then {symbols(a).value} else {}
  }

  ghost function LinesAt(symbols: Symbolizer, addrs: set<Addr>): set<LineInfo> {
    set a, l | a in addrs && l in LineAt(symbols, a) :: l
  }

  ghost function Lined(b: Block, symbols: Symbolizer): Block {
    b.(lines := b.lines + LinesAt(symbols, b.addrs))
  }

  ghost function WithLines(g: Graph, symbols: Symbolizer): Graph {
    g.(nodes := map a | a in g.nodes :: Lined(g.nodes[a], symbols))
  }

  lemma {:induction false} LinesOneMore(symbols: Symbolizer, addrs: set<Addr>, a: Addr)
    ensures LinesAt(symbols, addrs + {a}) == LinesAt(symbols, addrs) + LineAt(symbols, a)
  {
  }

  /** A block gets the lines of all its addresses. */
  method AddLinesOf(node: Node, symbols: Symbolizer)
    modifies node`lines
    ensures node.AsBlock() == Lined(old(node.AsBlock()), symbols)
  {
    var todo := node.addrs;
    ghost var done: set<Addr> := {};
    while todo != {}
      invariant done + todo == node.addrs
      invariant node.lines == old(node.lines) + LinesAt(symbols, done)
    {
      var addr := Pick(todo);
      LinesOneMore(symbols, done, addr);
      var result := symbols(addr);
      if result.Some? {
        node.lines := node.lines + {result.value};
      }
      todo, done := todo - {addr}, done + {addr};
    }
    assert done == node.addrs;
  }

  /** Every block of the function gets its lines, and nothing else changes. */
  method AddLines(cfg: FunctionCFG, symbols: Symbolizer)
    requires cfg.Valid()
    modifies cfg.repr`lines
    ensures cfg.Valid() && cfg.View() == WithLines(old(cfg.View()), symbols)
  {
    ghost var g := cfg.View();
    var todo := cfg.nodes.Keys;
    while todo != {}
      invariant todo <= cfg.nodes.Keys
      invariant forall a {:trigger cfg.nodes[a]} | a in cfg.nodes ::
        cfg.nodes[a].AsBlock() == if a in todo then g.nodes[a] else Lined(g.nodes[a], symbols)
    {
      var a := Pick(todo);
      todo := todo - {a};
      assert forall b | b in cfg.nodes && b != a :: cfg.nodes[b] != cfg.nodes[a];
      AddLinesOf(cfg.nodes[a], symbols);
    }
    cfg.ViewIs(WithLines(g, symbols));
  }

  /** Lines change no edge and no instrumentation. */
  lemma {:induction false} LinesChangeNoEdge(g: Graph, symbols: Symbolizer)
    ensures forall a, b :: Edge(WithLines(g, symbols), a, b) <==> Edge(g, a, b)
    ensures InstrumentedAddrs(WithLines(g, symbols)) == InstrumentedAddrs(g)
    ensures Linked(g) ==> Linked(WithLines(g, symbols))
    ensures Anchored(g) ==> Anchored(WithLines(g, symbols))
    ensures OwnKeysOnly(g) ==> OwnKeysOnly(WithLines(g, symbols))
  {
    var h := WithLines(g, symbols);
    assert forall a, b :: Edge(h, a, b) <==> Edge(g, a, b);
    assert forall a, b :: BackEdge(h, a, b) <==> BackEdge(g, a, b);
    forall x
      ensures x in InstrumentedAddrs(h) <==> x in InstrumentedAddrs(g)
    {
      if x in InstrumentedAddrs(g) {
        var a :| a in g.nodes && x in g.nodes[a].instrumented;
        assert a in h.nodes && x in h.nodes[a].instrumented;
      }
    }
  }

  lemma {:induction false} SamePath(g: Graph, symbols: Symbolizer, p: seq<Addr>)
    ensures IsPath(WithLines(g, symbols), p) <==> IsPath(g, p)
  {
    var h := WithLines(g, symbols);
    assert forall a, b :: Edge(h, a, b) <==> Edge(g, a, b);
    if IsPath(g, p) {
      forall i | 0 <= i < |p| - 1 ensures Edge(h, p[i], p[i + 1]) { assert Edge(g, p[i], p[i + 1]); }
    }
    if IsPath(h, p) {
      forall i | 0 <= i < |p| - 1 ensures Edge(g, p[i], p[i + 1]) { assert Edge(h, p[i], p[i + 1]); }
    }
  }

  lemma {:induction false} LinesKeepReach(g: Graph, symbols: Symbolizer, a: Addr, b: Addr)
    ensures Reach(WithLines(g, symbols), a, b) <==> Reach(g, a, b)
  {
    if Reach(g, a, b) {
      var p :| PathFromTo(g, p, a, b);
      SamePath(g, symbols, p);
      assert PathFromTo(WithLines(g, symbols), p, a, b);
    }
    if Reach(WithLines(g, symbols), a, b) {
      var p :| PathFromTo(WithLines(g, symbols), p, a, b);
      SamePath(g, symbols, p);
      assert PathFromTo(g, p, a, b);
    }
  }

  // ---------- One function ----------

  /** `r` is what the analysis makes of the listing. */
  ghost predicate Analysed(f: Function, symbols: Symbolizer, r: Result, marks: Marks)
  {
    && Listing(f.code) && Sound(r) && r.name == f.name && r.original == WithLines(BuiltGraph(f.code), symbols)
    && NormalForm(r.final) && (!Failed(r) ==> ExactEntries(r, marks))
  }

  /** From one listing to the entries of its blocks, on the objects in between. */
  method AnalyseListing(f: Function, symbols: Symbolizer) returns (r: Result, ghost marks: Marks)
    requires Listing(f.code)
    ensures Analysed(f, symbols, r, marks)
  {
    var cfg := BuildFunction(f.name, f.code);
    AddLines(cfg, symbols);
    BuiltGraphIsSound(f.code);
    LinesChangeNoEdge(BuiltGraph(f.code), symbols);
    r, marks := AnalyseFunction(cfg);
  }

  /** The starts of the blocks with a traced instruction, and the start of the function. */
  ghost function TracedStarts(code: seq<Instruction>): set<Addr> {
    set s: nat | s < |code| && Starts(code, s) && Traced(code, s) :: code[s].addr
  }

  lemma {:induction false} InstrumentedAreTracedStarts(code: seq<Instruction>)
    requires Listing(code)
    ensures InstrumentedAddrs(BuiltGraph(code)) == TracedStarts(code)
  {
    var g := BuiltGraph(code);
    forall x | x in InstrumentedAddrs(g)
      ensures x in TracedStarts(code)
    {
      var a :| a in g.nodes && x in g.nodes[a].instrumented;
      assert Traced(code, KeyIndex(code, a));
    }
    forall x | x in TracedStarts(code)
      ensures x in InstrumentedAddrs(g)
    {
      var s: nat :| s < |code| && Starts(code, s) && Traced(code, s) && code[s].addr == x;
      KeyIndexIs(code, s);
      KeysAreBlockKeys(code, x);
      assert x in g.nodes && x in g.nodes[x].instrumented;
    }
  }

  lemma {:induction false} ReachSplits(g: Graph, a: Addr, b: Addr)
    requires Linked(g) && a != b
    ensures Reach(g, a, b) <==> exists c :: Edge(g, a, c) && Reach(g, c, b)
  {
    if Reach(g, a, b) {
      var p :| PathFromTo(g, p, a, b);
      assert Edge(g, p[0], p[0 + 1]);
      PathDrop(g, p, 1);
      assert PathFromTo(g, p[1..], p[1], b);
    }
    if c :| Edge(g, a, c) && Reach(g, c, b) {
      assert BackEdge(g, a, c);
      ReachStep(g, a, c);
      ReachTransitive(g, a, c, b);
    }
  }

  lemma {:induction false} StartsTheirBlock(code: seq<Instruction>, a: Addr)
    requires Listing(code) && IsBlockKey(code, a)
    ensures KeyIndex(code, a) < |code| && StartOf(code, KeyIndex(code, a)) == KeyIndex(code, a)
    ensures KeyOf(code, KeyIndex(code, a)) == a
  {
  }

  /** Between different blocks, paths of instructions are paths of blocks. */
  lemma {:induction false} StartsReachAsBlocks(code: seq<Instruction>, a: Addr, b: Addr)
    requires Listing(code) && SamePaths(code) && IsBlockKey(code, a) && IsBlockKey(code, b) && a != b
    ensures Reach(BuiltGraph(code), a, b) <==> MachineReach(code, KeyIndex(code, a), KeyIndex(code, b))
  {
    StartsTheirBlock(code, a);
    StartsTheirBlock(code, b);
    BuiltGraphLinked(code);
    ReachSplits(BuiltGraph(code), a, b);
    assert MachineReach(code, KeyIndex(code, a), KeyIndex(code, b)) <==> BlockReach(code, KeyIndex(code, a), KeyIndex(code, b));
  }

  lemma {:induction false} FinalKeysAreStarts(f: Function, symbols: Symbolizer, r: Result, marks: Marks, a: Addr)
    requires Analysed(f, symbols, r, marks) && a in r.final.nodes
    ensures IsBlockKey(f.code, a)
  {
    ReachSelf(r.final, a);
    SimplificationPreservesReachability(r.original, r.final, a, a);
    KeysAreBlockKeys(f.code, a);
  }

  /** What an entry of the map says about reachability is what the instructions say: control may
      pass from the start of its block to the start of another traced one that is left. */
  lemma {:induction false} EntriesReachAsCode(f: Function, symbols: Symbolizer, r: Result, marks: Marks, a: Addr, b: Addr)
    requires JumpsSeen(f.code) && MiddlesFall(f.code) && EndsConnected(f.code) && Analysed(f, symbols, r, marks) && !Failed(r)
    requires a in r.entries && r.final.nodes[a].instrumented != {}
    ensures IsBlockKey(f.code, a)
    ensures b in r.entries[a].reachable <==>
            && b != a && b in r.final.nodes && r.final.nodes[b].instrumented != {}
            && IsBlockKey(f.code, b) && MachineReach(f.code, KeyIndex(f.code, a), KeyIndex(f.code, b))
  {
    BlocksAreFaithful(f.code);
    EntriesReachAsOriginal(r, marks, a, b);
    FinalKeysAreStarts(f, symbols, r, marks, a);
    if b != a && b in r.final.nodes {
      FinalKeysAreStarts(f, symbols, r, marks, b);
      LinesKeepReach(BuiltGraph(f.code), symbols, a, b);
      StartsReachAsBlocks(f.code, a, b);
    }
  }

  lemma {:induction false} LinedOwnAddrs(code: seq<Instruction>, symbols: Symbolizer)
    requires Listing(code)
    ensures OwnAddrs(WithLines(BuiltGraph(code), symbols))
  {
    BuiltGraphOwnAddrs(code);
  }

  /** The lines of an entry are those of the original blocks whose keys are among the addresses of its
      block: its own, and blocks that went. */
  lemma {:induction false} EntryLinesAre(f: Function, symbols: Symbolizer, r: Result, marks: Marks, a: Addr, l: LineInfo)
    requires Analysed(f, symbols, r, marks) && a in r.entries
    ensures l in r.entries[a].lines <==> FromBlocks(r.original, r.final.nodes[a].addrs, l)
    ensures forall c | c in r.final.nodes && c in r.final.nodes[a].addrs :: c == a
  {
    LinedOwnAddrs(f.code, symbols);
    SimplifiedFromOriginal(r.original, r.final);
    assert r.entries[a].lines == r.final.nodes[a].lines;
  }

  // ---------- All functions ----------

  /** Regions without a traced instruction and some functions of the runtime are passed over. */
  predicate Skipped(f: Function) {
    || (forall i | 0 <= i < |f.code| :: !f.code[i].isTraced)
    || f.name in {"deregister_tm_clones", "register_tm_clones", "sancov.module_ctor_8bit_counters"}
  }

  function Taken(functions: seq<Function>): (fs: seq<Function>)
    ensures forall f | f in fs :: f in functions && !Skipped(f)
  {
    if functions == [] then []
    else
      var last := functions[|functions| - 1];
      Taken(functions[..|functions| - 1]) + if Skipped(last) then [] else [last]
  }

  lemma {:induction false} TakenOneMore(functions: seq<Function>, n: nat)
    requires n < |functions|
    ensures Taken(functions[..n + 1]) == Taken(functions[..n]) + if Skipped(functions[n]) then [] else [functions[n]]
  {
    assert functions[..n + 1][..n] == functions[..n];
  }

  ghost predicate AddrsOf(f: Function, a: Addr) {
    exists i :: 0 <= i < |f.code| && f.code[i].addr == a
  }

  /** The disassembler lists every address once, in one function. */
  ghost predicate Listings(functions: seq<Function>) {
    && (forall f | f in functions && f.code != [] :: Listing(f.code))
    && forall i, j, a | 0 <= i < j < |functions| :: !(AddrsOf(functions[i], a) && AddrsOf(functions[j], a))
  }

  /** A function, what the analysis makes of it, and the backward labels it found on the way. */
  datatype Study = Study(f: Function, r: Result, marks: Marks)

  ghost function Right(symbols: Symbolizer): Study -> bool {
    (s: Study) => Analysed(s.f, symbols, s.r, s.marks)
  }

  ghost predicate All<T>(p: T -> bool, xs: seq<T>) {
    forall i | 0 <= i < |xs| :: p(xs[i])
  }

  lemma {:induction false} AllOneMore<T>(p: T -> bool, xs: seq<T>, x: T)
    requires All(p, xs) && p(x)
    ensures All(p, xs + [x])
  {
  }

  ghost function FunctionsIn(studies: seq<Study>): seq<Function> {
    seq(|studies|, i requires 0 <= i < |studies| => studies[i].f)
  }

  ghost function ResultsIn(studies: seq<Study>): seq<Result> {
    seq(|studies|, i requires 0 <= i < |studies| => studies[i].r)
  }

  /** One study for each function, and the results are theirs. */
  ghost predicate AllAnalysed(fs: seq<Function>, symbols: Symbolizer, rs: seq<Result>, studies: seq<Study>) {
    fs == FunctionsIn(studies) && rs == ResultsIn(studies) && All(Right(symbols), studies)
  }

  lemma {:induction false} AnalysedAt(fs: seq<Function>, symbols: Symbolizer, rs: seq<Result>, studies: seq<Study>, i: nat)
    requires AllAnalysed(fs, symbols, rs, studies) && i < |fs|
    ensures |rs| == |studies| == |fs| && Analysed(fs[i], symbols, rs[i], studies[i].marks)
  {
    assert Right(symbols)(studies[i]);
  }

  lemma {:induction false} AnalysedOneMore(fs: seq<Function>, symbols: Symbolizer, rs: seq<Result>, studies: seq<Study>, s: Study)
    requires AllAnalysed(fs, symbols, rs, studies) && Analysed(s.f, symbols, s.r, s.marks)
    ensures AllAnalysed(fs + [s.f], symbols, rs + [s.r], studies + [s])
  {
    assert Right(symbols)(s);
    AllOneMore(Right(symbols), studies, s);
    InOneMore(studies, s);
  }

  lemma {:induction false} InOneMore(studies: seq<Study>, s: Study)
    ensures FunctionsIn(studies + [s]) == FunctionsIn(studies) + [s.f]
    ensures ResultsIn(studies + [s]) == ResultsIn(studies) + [s.r]
  {
  }

  method AnalyseListings(functions: seq<Function>, symbols: Symbolizer)
    returns (rs: seq<Result>, ghost studies: seq<Study>)
    requires Listings(functions)
    ensures AllAnalysed(Taken(functions), symbols, rs, studies)
  {
    rs, studies := [], [];
    for i := 0 to |functions|
      invariant AllAnalysed(Taken(functions[..i]), symbols, rs, studies)
    {
      var f := functions[i];
      TakenOneMore(functions, i);
      if Skipped(f) {
        continue;
      }
      assert f.code != [];
      var r;
      ghost var m;
      r, m := AnalyseListing(f, symbols);
      AnalysedOneMore(Taken(functions[..i]), symbols, rs, studies, Study(f, r, m));
      rs, studies := rs + [r], studies + [Study(f, r, m)];
    }
    assert functions[..|functions|] == functions;
  }

  /** From the regions of one worker to its map. */
  method MapFromListings(functions: seq<Function>, symbols: Symbolizer)
    returns (data: map<Addr, Entry>, ghost rs: seq<Result>, ghost studies: seq<Study>)
    requires Listings(functions)
    ensures AllAnalysed(Taken(functions), symbols, rs, studies) && data == DataOf(rs)
    ensures (forall x :: x in data <==> KeyOfSome(functions, x)) <==> NoNamesakes(rs)
    ensures NoNamesakes(rs) ==> forall f | f in functions && Recorded(f) :: HasItsLines(f, symbols, data)
  {
    var results;
    results, studies := AnalyseListings(functions, symbols);
    rs := results;
    ListingsAreApart(functions, symbols, rs, studies);
    data := CreateData(results);
    KeysAreTracedStarts(functions, symbols, rs, studies);
    if NoNamesakes(rs) {
      forall f | f in functions && Recorded(f)
        ensures HasItsLines(f, symbols, data)
      {
        KeysHaveTheirLines(functions, symbols, rs, studies, f);
      }
    }
  }

  lemma {:induction false} TakenIndices(functions: seq<Function>, i: nat, j: nat) returns (k: nat, l: nat)
    requires i < j < |Taken(functions)|
    ensures k < l < |functions| && functions[k] == Taken(functions)[i] && functions[l] == Taken(functions)[j]
  {
    var n := |functions| - 1;
    var init := functions[..n];
    if j < |Taken(init)| {
      k, l := TakenIndices(init, i, j);
    } else {
      assert Taken(init)[i] in init;
      k :| 0 <= k < n && init[k] == Taken(init)[i];
      l := n;
    }
  }

  lemma {:induction false} TracedIsListed(f: Function, symbols: Symbolizer, r: Result, marks: Marks, x: Addr)
    requires Analysed(f, symbols, r, marks)
    ensures x in InstrumentedAddrs(r.original) <==> x in TracedStarts(f.code)
    ensures x in InstrumentedAddrs(r.original) ==> AddrsOf(f, x)
  {
    InstrumentedAreTracedStarts(f.code);
    LinesChangeNoEdge(BuiltGraph(f.code), symbols);
  }

  lemma {:induction false} TracedOnce(functions: seq<Function>, symbols: Symbolizer, rs: seq<Result>, studies: seq<Study>, i: nat, j: nat)
    requires Listings(functions) && AllAnalysed(Taken(functions), symbols, rs, studies) && i < j < |rs|
    ensures InstrumentedAddrs(rs[i].original) !! InstrumentedAddrs(rs[j].original)
  {
    var k, l := TakenIndices(functions, i, j);
    forall x | x in InstrumentedAddrs(rs[i].original)
      ensures x !in InstrumentedAddrs(rs[j].original)
    {
      AnalysedAt(Taken(functions), symbols, rs, studies, i);
      AnalysedAt(Taken(functions), symbols, rs, studies, j);
      TracedIsListed(Taken(functions)[i], symbols, rs[i], studies[i].marks, x);
      TracedIsListed(Taken(functions)[j], symbols, rs[j], studies[j].marks, x);
      assert AddrsOf(functions[k], x);
    }
  }

  ghost predicate ApartAt(rs: seq<Result>, i: nat, j: nat)
    requires i < |rs| && j < |rs|
  {
    InstrumentedAddrs(rs[i].original) !! InstrumentedAddrs(rs[j].original)
  }

  lemma {:induction false} PairwiseApart(rs: seq<Result>)
    requires forall i, j | 0 <= i < j < |rs| :: ApartAt(rs, i, j)
    ensures Apart(rs)
  {
    forall q, r | q in rs && r in rs && q != r
      ensures InstrumentedAddrs(q.original) !! InstrumentedAddrs(r.original)
    {
      var i :| 0 <= i < |rs| && rs[i] == q;
      var j :| 0 <= j < |rs| && rs[j] == r;
      assert i < j ==> ApartAt(rs, i, j);
      assert j < i ==> ApartAt(rs, j, i);
    }
  }

  lemma {:induction false} AnalysedAreSound(fs: seq<Function>, symbols: Symbolizer, rs: seq<Result>, studies: seq<Study>)
    requires AllAnalysed(fs, symbols, rs, studies)
    ensures AllSound(rs)
  {
    forall r | r in rs
      ensures Sound(r)
    {
      var i :| 0 <= i < |rs| && rs[i] == r;
      AnalysedAt(fs, symbols, rs, studies, i);
    }
  }

  lemma {:induction false} ListingsAreApart(functions: seq<Function>, symbols: Symbolizer, rs: seq<Result>, studies: seq<Study>)
    requires Listings(functions) && AllAnalysed(Taken(functions), symbols, rs, studies)
    ensures AllSound(rs) && Apart(rs)
  {
    AnalysedAreSound(Taken(functions), symbols, rs, studies);
    forall i, j | 0 <= i < j < |rs|
      ensures ApartAt(rs, i, j)
    {
      TracedOnce(functions, symbols, rs, studies, i, j);
    }
    PairwiseApart(rs);
  }

  // ---------- What the listings say should be in the map ----------

  /** The marker of a traced instruction occurs in the region, and it is none of the runtime's. */
  ghost predicate Recorded(f: Function) {
    && (exists i :: 0 <= i < |f.code| && f.code[i].isTraced)
    && f.name != "deregister_tm_clones" && f.name != "register_tm_clones" && f.name != "sancov.module_ctor_8bit_counters"
  }

  /** The first address of the function, or the start of a block with a traced instruction. */
  ghost predicate ShouldBeKey(code: seq<Instruction>, x: Addr) {
    && code != []
    && (x == code[0].addr || exists s, k :: InBlockAt(code, s, k) && code[s].addr == x && code[k].isTraced)
  }

  ghost predicate KeyOfSome(functions: seq<Function>, x: Addr) {
    exists f :: f in functions && Recorded(f) && ShouldBeKey(f.code, x)
  }

  lemma {:induction false} TakenAreRecorded(functions: seq<Function>, f: Function)
    ensures f in Taken(functions) <==> f in functions && Recorded(f)
  {
    if functions != [] {
      var init, last := functions[..|functions| - 1], functions[|functions| - 1];
      TakenAreRecorded(init, f);
      assert functions == init + [last];
      assert Skipped(last) <==> !Recorded(last);
    }
  }

  lemma {:induction false} TracedStartsAreKeys(code: seq<Instruction>, x: Addr)
    requires Listing(code)
    ensures x in TracedStarts(code) <==> ShouldBeKey(code, x)
  {
    if x in TracedStarts(code) {
      var s: nat :| s < |code| && Starts(code, s) && Traced(code, s) && code[s].addr == x;
      if s > 0 {
        var k :| s <= k <= EndOf(code, s) && code[k].isTraced;
        BlockAtIs(code, s, k);
        assert InBlockAt(code, s, k);
      }
    }
    if ShouldBeKey(code, x) {
      if x == code[0].addr {
        assert Starts(code, 0) && Traced(code, 0);
      } else {
        var s, k :| InBlockAt(code, s, k) && code[s].addr == x && code[k].isTraced;
        BlockAtIs(code, s, k);
        assert Traced(code, s);
      }
    }
  }

  lemma {:induction false} TracedAt(functions: seq<Function>, symbols: Symbolizer, rs: seq<Result>, studies: seq<Study>, i: nat, x: Addr)
    requires AllAnalysed(Taken(functions), symbols, rs, studies) && i < |rs|
    ensures x in InstrumentedAddrs(rs[i].original) <==> ShouldBeKey(Taken(functions)[i].code, x)
    ensures Taken(functions)[i] in functions && Recorded(Taken(functions)[i])
  {
    var f := Taken(functions)[i];
    AnalysedAt(Taken(functions), symbols, rs, studies, i);
    TracedIsListed(f, symbols, rs[i], studies[i].marks, x);
    TracedStartsAreKeys(f.code, x);
    TakenAreRecorded(functions, f);
  }

  lemma {:induction false} TracedIsKey(functions: seq<Function>, symbols: Symbolizer, rs: seq<Result>, studies: seq<Study>, x: Addr)
    requires AllAnalysed(Taken(functions), symbols, rs, studies) && TracedInSome(rs, x)
    ensures KeyOfSome(functions, x)
  {
    var i :| 0 <= i < |rs| && x in InstrumentedAddrs(rs[i].original);
    TracedAt(functions, symbols, rs, studies, i, x);
  }

  lemma {:induction false} KeyIsTraced(functions: seq<Function>, symbols: Symbolizer, rs: seq<Result>, studies: seq<Study>, f: Function, x: Addr)
    requires AllAnalysed(Taken(functions), symbols, rs, studies) && f in functions && Recorded(f) && ShouldBeKey(f.code, x)
    ensures TracedInSome(rs, x)
  {
    var fs := Taken(functions);
    TakenAreRecorded(functions, f);
    var i :| 0 <= i < |fs| && fs[i] == f;
    AnalysedAt(fs, symbols, rs, studies, i);
    TracedAt(functions, symbols, rs, studies, i, x);
    assert x in InstrumentedAddrs(rs[i].original);
  }

  lemma {:induction false} SameTraced(functions: seq<Function>, symbols: Symbolizer, rs: seq<Result>, studies: seq<Study>, x: Addr)
    requires AllAnalysed(Taken(functions), symbols, rs, studies)
    ensures TracedInSome(rs, x) <==> KeyOfSome(functions, x)
  {
    if TracedInSome(rs, x) { TracedIsKey(functions, symbols, rs, studies, x); }
    if KeyOfSome(functions, x) {
      var f :| f in functions && Recorded(f) && ShouldBeKey(f.code, x);
      KeyIsTraced(functions, symbols, rs, studies, f, x);
    }
  }

  /** From the listings on: the keys of the map are the starts of all recorded functions and of their
      blocks with a traced instruction, exactly if no function that failed shares its name with one
      that did not. */
  lemma {:induction false} KeysAreTracedStarts(functions: seq<Function>, symbols: Symbolizer, rs: seq<Result>, studies: seq<Study>)
    requires Listings(functions) && AllAnalysed(Taken(functions), symbols, rs, studies)
    ensures (forall x :: x in DataOf(rs) <==> KeyOfSome(functions, x)) <==> NoNamesakes(rs)
  {
    ListingsAreApart(functions, symbols, rs, studies);
    CompleteIffNoNamesakes(rs);
    forall x
      ensures TracedInSome(rs, x) <==> KeyOfSome(functions, x)
    {
      SameTraced(functions, symbols, rs, studies, x);
    }
  }

  /** Under every key the map has all lines that the symbolizer gives the block that starts there. */
  ghost predicate HasItsLines(f: Function, symbols: Symbolizer, data: map<Addr, Entry>) {
    forall s, k, l | InBlockAt(f.code, s, k) && ShouldBeKey(f.code, f.code[s].addr) && symbols(f.code[k].addr) == Some(l) ::
      f.code[s].addr in data && l in data[f.code[s].addr].lines
  }

  lemma {:induction false} KeysHaveTheirLines(functions: seq<Function>, symbols: Symbolizer, rs: seq<Result>, studies: seq<Study>, f: Function)
    requires Listings(functions) && AllAnalysed(Taken(functions), symbols, rs, studies) && NoNamesakes(rs)
    requires f in functions && Recorded(f)
    ensures HasItsLines(f, symbols, DataOf(rs))
  {
    var fs := Taken(functions);
    TakenAreRecorded(functions, f);
    var i :| 0 <= i < |fs| && fs[i] == f;
    AnalysedAt(fs, symbols, rs, studies, i);
    forall s, k, l | InBlockAt(f.code, s, k) && ShouldBeKey(f.code, f.code[s].addr) && symbols(f.code[k].addr) == Some(l)
      ensures f.code[s].addr in DataOf(rs) && l in DataOf(rs)[f.code[s].addr].lines
    {
      TracedStartsAreKeys(f.code, f.code[s].addr);
      KeyHasItsLines(functions, symbols, rs, studies, i, f.code[s].addr);
      LineOfBlock(f, symbols, s, k, l);
    }
  }

  /** The lines the symbolizer gives the block that starts at `x`. */
  ghost function LinesOfBlock(f: Function, symbols: Symbolizer, x: Addr): set<LineInfo>
    requires IsBlockKey(f.code, x)
  {
    LinesAt(symbols, BlockAddrs(f.code, KeyIndex(f.code, x)))
  }

  lemma {:induction false} LineOfBlock(f: Function, symbols: Symbolizer, s: nat, k: nat, l: LineInfo)
    requires Listing(f.code) && InBlockAt(f.code, s, k) && symbols(f.code[k].addr) == Some(l)
    ensures IsBlockKey(f.code, f.code[s].addr) && l in LinesOfBlock(f, symbols, f.code[s].addr)
  {
    KeyIndexIs(f.code, s);
    BlockAtIs(f.code, s, k);
    assert KeyIndex(f.code, f.code[s].addr) == s;
    assert f.code[k].addr in BlockAddrs(f.code, s) && l in LineAt(symbols, f.code[k].addr);
  }

  lemma {:induction false} KeyHasItsLines(functions: seq<Function>, symbols: Symbolizer, rs: seq<Result>, studies: seq<Study>, i: nat, x: Addr)
    requires Listings(functions) && AllAnalysed(Taken(functions), symbols, rs, studies) && NoNamesakes(rs)
    requires i < |rs| && x in TracedStarts(Taken(functions)[i].code)
    ensures IsBlockKey(Taken(functions)[i].code, x) && x in DataOf(rs)
    ensures LinesOfBlock(Taken(functions)[i], symbols, x) <= DataOf(rs)[x].lines
  {
    var f, r := Taken(functions)[i], rs[i];
    ListingsAreApart(functions, symbols, rs, studies);
    AnalysedAt(Taken(functions), symbols, rs, studies, i);
    TracedIsListed(f, symbols, r, studies[i].marks, x);
    ContributionIsTraced(r, x);
    DataHas(rs, i, x);
    ContributionCovers(r);
    KeysAreBlockKeys(f.code, x);
    OriginalLines(f, symbols, r, studies[i].marks, x);
  }

  lemma {:induction false} BuiltLines(code: seq<Instruction>, symbols: Symbolizer, x: Addr)
    requires Listing(code) && x in TracedStarts(code)
    ensures IsBlockKey(code, x)
    ensures var g := WithLines(BuiltGraph(code), symbols);
            x in g.nodes && g.nodes[x].instrumented != {} && g.nodes[x].lines == LinesAt(symbols, BlockAddrs(code, KeyIndex(code, x)))
  {
    var s: nat :| s < |code| && Starts(code, s) && Traced(code, s) && code[s].addr == x;
    KeyIndexIs(code, s);
    KeysAreBlockKeys(code, x);
  }

  lemma {:induction false} OriginalLines(f: Function, symbols: Symbolizer, r: Result, marks: Marks, x: Addr)
    requires Analysed(f, symbols, r, marks) && x in TracedStarts(f.code)
    ensures IsBlockKey(f.code, x) && x in FallbackEntries(r)
    ensures FallbackEntries(r)[x].lines == LinesOfBlock(f, symbols, x)
  {
    BuiltLines(f.code, symbols, x);
    OwnFallback(r, x);
  }
}
