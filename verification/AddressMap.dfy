/** From analysed functions to the map that translates traced addresses to source lines. */
module AddressMap {
  import opened Options
  import opened FlowGraph
  import opened GraphPayload
  import opened GraphSearch
  import opened SetChoice
  import opened MapOverlay
  import opened CfgSimplifier
  import opened BlockBuilder
  import opened Regrouping

  /** What the translation reads of a node. */
  datatype Entry = Entry(
    lines: set<LineInfo>,
    reachable: set<Addr>,
    quietLines: set<LineInfo>,
    fallback: bool)

  /** One function: the graph as disassembled, the graph as simplified, and an entry per node. */
  datatype Result = Result(name: string, original: Graph, final: Graph, entries: map<Addr, Entry>)

  predicate Failed(r: Result) {
    |r.final.nodes| > MAX_NODES
  }

  ghost predicate Sound(r: Result) {
    && Linked(r.original) && Anchored(r.original) && OwnKeysOnly(r.original)
    && Derives(WithoutSelfLoops(r.original), r.final)
    && r.entries.Keys == r.final.nodes.Keys
    && forall a | a in r.entries :: r.entries[a].lines == r.final.nodes[a].lines && !r.entries[a].fallback
  }

  function EntryOf(n: Node): Entry
    reads n
  {
    Entry(n.lines, n.reachableInstrumentedAddrs, n.linesFromAddrsReachableWoInstrumentation, n.fallback)
  }

  /** The nodes as they will be read later. */
  method Snapshot(cfg: FunctionCFG, ghost g: Graph) returns (entries: map<Addr, Entry>)
    requires cfg.Is(g) && forall n | n in cfg.repr :: !n.fallback
    ensures entries.Keys == g.nodes.Keys
    ensures forall a {:trigger entries[a]} | a in entries ::
      entries[a].lines == g.nodes[a].lines && !entries[a].fallback
    ensures forall a {:trigger entries[a]} | a in entries :: entries[a] == EntryOf(cfg.nodes[a])
  {
    entries := map a | a in cfg.nodes :: EntryOf(cfg.nodes[a]);
    forall a | a in entries
      ensures entries[a].lines == g.nodes[a].lines
    {
      assert cfg.nodes[a].AsBlock() == g.nodes[a];
    }
  }

  /** The labels of the entries are exact. */
  ghost predicate ExactEntries(r: Result, marks: Marks) {
    && AllBackExact(r.final, marks) && r.entries.Keys == r.final.nodes.Keys
    && forall a | a in r.entries ::
      && r.entries[a].reachable == ForwardLabel(r.final, a)
      && r.entries[a].quietLines == QuietLines(r.final, marks, a)
  }

  /** What the map says a traced address can reach is what the function could reach before it was
      simplified. */
  lemma {:induction false} EntriesReachAsOriginal(r: Result, marks: Marks, a: Addr, x: Addr)
    requires Sound(r) && ExactEntries(r, marks) && a in r.entries && r.final.nodes[a].instrumented != {}
    ensures x in r.entries[a].reachable <==>
            x != a && x in r.final.nodes && r.final.nodes[x].instrumented != {} && Reach(r.original, a, x)
  {
    ForwardLabelInOriginal(r.original, r.final, a, x);
  }

  lemma {:induction false} ExactFromLabels(cfg: FunctionCFG, r: Result, marks: Marks)
    requires cfg.Labelled(r.final, marks) && r.entries.Keys == r.final.nodes.Keys
    requires forall a {:trigger r.entries[a]} | a in r.entries :: r.entries[a] == EntryOf(cfg.nodes[a])
    ensures ExactEntries(r, marks)
  {
    forall a | a in r.entries
      ensures r.entries[a].reachable == ForwardLabel(r.final, a)
      ensures r.entries[a].quietLines == QuietLines(r.final, marks, a)
    {
      assert r.entries[a] == EntryOf(cfg.nodes[a]);
    }
  }

  /** What becomes of one function, from the removal of its self loops to its labels; the copy that
      the fallback entries are made from is the graph at the start. */
  method AnalyseFunction(cfg: FunctionCFG) returns (r: Result, ghost marks: Marks)
    requires cfg.Valid() && Linked(cfg.View()) && Anchored(cfg.View()) && OwnKeysOnly(cfg.View())
    requires cfg.Unlabelled()
    modifies cfg, cfg.repr
    ensures Sound(r) && r.name == cfg.name && r.original == old(cfg.View()) && NormalForm(r.final)
    ensures !Failed(r) ==> ExactEntries(r, marks)
  {
    var original := cfg.View();
    var ok;
    ghost var g;
    ok, g, marks := cfg.Analyse();
    r := Summary(cfg, original, ok, g, marks);
  }

  method Summary(cfg: FunctionCFG, original: Graph, ghost ok: bool, ghost g: Graph, ghost marks: Marks) returns (r: Result)
    requires cfg.Is(g) && (ok ==> cfg.Labelled(g, marks)) && forall n | n in cfg.repr :: !n.fallback
    requires Linked(original) && Anchored(original) && OwnKeysOnly(original) && Derives(WithoutSelfLoops(original), g)
    ensures Sound(r) && r.name == cfg.name && r.original == original && r.final == g
    ensures ok ==> ExactEntries(r, marks)
  {
    cfg.ViewIs(g);
    var entries := Snapshot(cfg, g);
    r := Result(cfg.name, original, cfg.View(), entries);
    if ok {
      ExactFromLabels(cfg, r, marks);
    }
  }

  // ---------- Contributions ----------

  ghost function InstrumentedAddrs(g: Graph): set<Addr> {
    set a, x | a in g.nodes && x in g.nodes[a].instrumented :: x
  }

  ghost function OwnerOf(g: Graph, x: Addr): (a: Addr)
    requires Owned(g, x)
    ensures Owns(g, a, x)
  {
    var a :| Owns(g, a, x); a
  }

  lemma {:induction false} InstrumentedIsOwned(g: Graph, x: Addr)
    ensures x in InstrumentedAddrs(g) <==> Owned(g, x)
  {
    if x in InstrumentedAddrs(g) {
      var a :| a in g.nodes && x in g.nodes[a].instrumented;
      assert Owns(g, a, x);
    }
    if Owned(g, x) {
      var a :| Owns(g, a, x);
    }
  }

  ghost function FallbackEntry(r: Result, a: Addr): Entry
    requires a in r.original.nodes
  {
    Entry(r.original.nodes[a].lines, {}, {}, true)
  }

  /** Every traced address with the lines of its own block in the graph as disassembled. */
  ghost function FallbackEntries(r: Result): map<Addr, Entry> {
    map x | x in InstrumentedAddrs(r.original) && Owned(r.original, x) :: FallbackEntry(r, OwnerOf(r.original, x))
  }

  /** Every traced address with the entry of the block it ended up in. */
  ghost function SimplifiedEntries(r: Result): map<Addr, Entry> {
    map x | x in InstrumentedAddrs(r.final) && Owned(r.final, x) && OwnerOf(r.final, x) in r.entries ::
      r.entries[OwnerOf(r.final, x)]
  }

  ghost function Contribution(r: Result): map<Addr, Entry> {
    if Failed(r) then FallbackEntries(r) else SimplifiedEntries(r)
  }

  /** Simplified or not, a function contributes exactly its traced addresses, and every address
      has at least the lines of its own block. */
  lemma {:induction false} ContributionCovers(r: Result)
    requires Sound(r)
    ensures SimplifiedEntries(r).Keys == FallbackEntries(r).Keys == InstrumentedAddrs(r.original)
    ensures forall x | x in FallbackEntries(r) ::
      FallbackEntries(r)[x].lines <= SimplifiedEntries(r)[x].lines && !SimplifiedEntries(r)[x].fallback
  {
    var g := WithoutSelfLoops(r.original);
    LoopsGone(r.original);
    OwnKeysAreSingleOwners(g);
    SimplificationConserves(g, r.final);
    forall x
      ensures Owned(r.original, x) <==> Owned(r.final, x)
      ensures x in InstrumentedAddrs(r.original) <==> Owned(r.original, x)
      ensures x in InstrumentedAddrs(r.final) <==> Owned(r.final, x)
    {
      InstrumentedIsOwned(r.original, x);
      InstrumentedIsOwned(r.final, x);
      assert forall a :: Owns(g, a, x) <==> Owns(r.original, a, x);
      assert Owned(g, x) <==> Owned(r.original, x);
    }
    forall x | x in FallbackEntries(r)
      ensures FallbackEntries(r)[x].lines <= SimplifiedEntries(r)[x].lines && !SimplifiedEntries(r)[x].fallback
    {
      var a, b := OwnerOf(r.original, x), OwnerOf(r.final, x);
      assert Owns(g, a, x) && Owns(r.final, b, x);
      assert Within(g.nodes[a], r.final.nodes[b]);
    }
  }

  // ---------- The map of one worker ----------

  ghost predicate AllSound(rs: seq<Result>) {
    forall r {:trigger Sound(r)} | r in rs :: Sound(r)
  }

  /** No address is traced in two different functions. */
  ghost predicate Apart(rs: seq<Result>) {
    forall q, r | q in rs && r in rs && q != r ::
      InstrumentedAddrs(q.original) !! InstrumentedAddrs(r.original)
  }

  /** A function that failed shares its name only with functions that failed too. */
  ghost predicate NoNamesakes(rs: seq<Result>) {
    forall q, r | q in rs && r in rs && q.name == r.name :: Failed(q) ==> Failed(r)
  }

  ghost function FailedNames(rs: seq<Result>): set<string> {
    set r | r in rs && Failed(r) :: r.name
  }

  ghost function FallbackParts(rs: seq<Result>): seq<map<Addr, Entry>> {
    seq(|rs|, i requires 0 <= i < |rs| => FallbackEntries(rs[i]))
  }

  /** The fallback entries of the functions that failed. */
  ghost function FailedParts(rs: seq<Result>): seq<map<Addr, Entry>> {
    seq(|rs|, i requires 0 <= i < |rs| => if Failed(rs[i]) then FallbackEntries(rs[i]) else map[])
  }

  /** The entries of the functions whose name is not among those of failed ones. */
  ghost function KeptParts(rs: seq<Result>, failed: set<string>): seq<map<Addr, Entry>> {
    seq(|rs|, i requires 0 <= i < |rs| => if rs[i].name in failed then map[] else SimplifiedEntries(rs[i]))
  }

  ghost function DataOf(rs: seq<Result>): map<Addr, Entry> {
    Overlay(KeptParts(rs, FailedNames(rs))) + Overlay(FailedParts(rs))
  }

  /** An address is traced in one function only. */
  lemma {:induction false} OneFunction(rs: seq<Result>, q: Result, r: Result, x: Addr)
    requires AllSound(rs) && Apart(rs) && q in rs && r in rs
    requires x in FallbackEntries(q) || x in SimplifiedEntries(q)
    requires x in FallbackEntries(r) || x in SimplifiedEntries(r)
    ensures q == r
  {
    assert Sound(q) && Sound(r);
    ContributionCovers(q);
    ContributionCovers(r);
    if q != r {
      assert false;
    }
  }

  lemma {:induction false} PartsAgree(rs: seq<Result>)
    requires AllSound(rs) && Apart(rs)
    ensures Agree(FallbackParts(rs)) && Agree(FailedParts(rs))
    ensures Agree(KeptParts(rs, FailedNames(rs)))
  {
    forall i, j, x | 0 <= i < |rs| && 0 <= j < |rs|
      && (x in FallbackEntries(rs[i]) || x in SimplifiedEntries(rs[i]))
      && (x in FallbackEntries(rs[j]) || x in SimplifiedEntries(rs[j]))
      ensures rs[i] == rs[j]
    {
      OneFunction(rs, rs[i], rs[j], x);
    }
  }

  /** The fallback entries of the nodes in `done`. */
  ghost function FallbackOf(r: Result, done: set<Addr>): map<Addr, Entry> {
    map x | x in FallbackEntries(r) && x in done :: FallbackEntries(r)[x]
  }

  lemma {:induction false} FallbackOneMore(r: Result, done: set<Addr>, a: Addr)
    requires Sound(r) && a in r.original.nodes
    ensures FallbackOf(r, done + {a}) ==
      FallbackOf(r, done) +
      if r.original.nodes[a].instrumented == {} then map[] else map[a := FallbackEntry(r, a)]
  {
    if r.original.nodes[a].instrumented == {} {
      NotOwn(r, a);
    } else {
      OwnFallback(r, a);
    }
  }

  lemma {:induction false} FallbackOfAll(r: Result)
    requires Sound(r)
    ensures FallbackOf(r, r.original.nodes.Keys) == FallbackEntries(r)
  {
    forall x | x in FallbackEntries(r)
      ensures x in r.original.nodes
    {
      InstrumentedIsOwned(r.original, x);
      var a :| Owns(r.original, a, x);
    }
  }

  lemma {:induction false} FallbackStep(data: map<Addr, Entry>, r: Result, done: set<Addr>, a: Addr)
    requires Sound(r) && a in r.original.nodes
    ensures data + FallbackOf(r, done + {a})
         == if r.original.nodes[a].instrumented == {} then data + FallbackOf(r, done)
            else (data + FallbackOf(r, done))[a := Entry(r.original.nodes[a].lines, {}, {}, true)]
  {
    FallbackOneMore(r, done, a);
    if r.original.nodes[a].instrumented != {} {
      PlusOne(data, FallbackOf(r, done), a, FallbackEntry(r, a));
    }
  }

  /** Puts the fallback entries of one function on top of what is there. */
  method AddFallback(data: map<Addr, Entry>, r: Result) returns (data': map<Addr, Entry>)
    requires Sound(r)
    ensures data' == data + FallbackEntries(r)
  {
    data' := data;
    var todo := r.original.nodes.Keys;
    ghost var done: set<Addr> := {};
    assert FallbackOf(r, done) == map[];
    while todo != {}
      invariant done + todo == r.original.nodes.Keys
      invariant data' == data + FallbackOf(r, done)
    {
      var a := Pick(todo);
      FallbackStep(data, r, done, a);
      if r.original.nodes[a].instrumented != {} {
        data' := data'[a := Entry(r.original.nodes[a].lines, {}, {}, true)];
      }
      todo, done := todo - {a}, done + {a};
    }
    FallbackOfAll(r);
    assert done == r.original.nodes.Keys;
  }

  lemma {:induction false} NotOwn(r: Result, a: Addr)
    requires Sound(r) && a in r.original.nodes && r.original.nodes[a].instrumented == {}
    ensures a !in FallbackEntries(r)
  {
    assert forall b | Owns(r.original, b, a) :: b == a;
  }

  /** The only traced address of an original block is its own key. */
  lemma {:induction false} OwnFallback(r: Result, a: Addr)
    requires Sound(r) && a in r.original.nodes && r.original.nodes[a].instrumented != {}
    ensures r.original.nodes[a].instrumented == {a}
    ensures a in FallbackEntries(r) && FallbackEntries(r)[a] == FallbackEntry(r, a)
  {
    var x := AnElement(r.original.nodes[a].instrumented);
    assert r.original.nodes[a].instrumented == {a};
    assert Owns(r.original, a, a) && Owned(r.original, a);
    InstrumentedIsOwned(r.original, a);
    assert forall b | Owns(r.original, b, a) :: b == a;
  }

  /** The simplified entries that belong to the nodes in `done`. */
  ghost function KeptOf(r: Result, done: set<Addr>): map<Addr, Entry>
    requires Sound(r)
  {
    map x | x in SimplifiedEntries(r) && OwnerOf(r.final, x) in done :: SimplifiedEntries(r)[x]
  }

  function SameEntry(keys: set<Addr>, e: Entry): map<Addr, Entry> {
    map x | x in keys :: e
  }

  lemma {:induction false} FinalOwners(r: Result, a: Addr, x: Addr)
    requires Sound(r) && Owns(r.final, a, x)
    ensures x in SimplifiedEntries(r) && OwnerOf(r.final, x) == a && SimplifiedEntries(r)[x] == r.entries[a]
  {
    LoopsGone(r.original);
    OwnKeysAreSingleOwners(WithoutSelfLoops(r.original));
    SimplificationConserves(WithoutSelfLoops(r.original), r.final);
    InstrumentedIsOwned(r.final, x);
    assert Owned(r.final, x);
  }

  lemma {:induction false} KeptOneMore(r: Result, done: set<Addr>, a: Addr)
    requires Sound(r) && a in r.final.nodes
    ensures KeptOf(r, done + {a}) == KeptOf(r, done) + SameEntry(r.final.nodes[a].instrumented, r.entries[a])
  {
    forall x | x in r.final.nodes[a].instrumented
      ensures x in SimplifiedEntries(r) && OwnerOf(r.final, x) == a && SimplifiedEntries(r)[x] == r.entries[a]
    {
      assert Owns(r.final, a, x);
      FinalOwners(r, a, x);
    }
    forall x | x in SimplifiedEntries(r) && OwnerOf(r.final, x) == a
      ensures x in r.final.nodes[a].instrumented
    {
      assert Owns(r.final, a, x);
    }
  }

  lemma {:induction false} KeptOfAll(r: Result)
    requires Sound(r)
    ensures KeptOf(r, r.final.nodes.Keys) == SimplifiedEntries(r)
  {
    forall x | x in SimplifiedEntries(r)
      ensures OwnerOf(r.final, x) in r.final.nodes
    {
      assert Owns(r.final, OwnerOf(r.final, x), x);
    }
  }

  /** Puts the simplified entries of one function on top of what is there. */
  method AddSimplified(data: map<Addr, Entry>, r: Result) returns (data': map<Addr, Entry>)
    requires Sound(r)
    ensures data' == data + SimplifiedEntries(r)
  {
    data' := data;
    var todo := r.final.nodes.Keys;
    ghost var done: set<Addr> := {};
    assert KeptOf(r, done) == map[];
    while todo != {}
      invariant done + todo == r.final.nodes.Keys
      invariant data' == data + KeptOf(r, done)
    {
      var a := Pick(todo);
      KeptOneMore(r, done, a);
      PlusAssociative(data, KeptOf(r, done), SameEntry(r.final.nodes[a].instrumented, r.entries[a]));
      data' := data' + SameEntry(r.final.nodes[a].instrumented, r.entries[a]);
      todo, done := todo - {a}, done + {a};
    }
    KeptOfAll(r);
    assert done == r.final.nodes.Keys;
  }

  /** The keys of the blocks that were instrumented at the start. */
  function TracedKeys(g: Graph): set<Addr> {
    set a | a in g.nodes && g.nodes[a].instrumented != {}
  }

  lemma {:induction false} TracedKeysAre(r: Result)
    requires Sound(r)
    ensures TracedKeys(r.original) == FallbackEntries(r).Keys
  {
    forall a | a in TracedKeys(r.original)
      ensures a in FallbackEntries(r)
    {
      OwnFallback(r, a);
    }
    forall x | x in FallbackEntries(r)
      ensures x in TracedKeys(r.original)
    {
      InstrumentedIsOwned(r.original, x);
      var a :| Owns(r.original, a, x);
      assert a == x;
    }
  }

  lemma {:induction false} OneMoreName(rs: seq<Result>, n: nat)
    requires n < |rs|
    ensures FailedNames(rs[..n + 1]) == FailedNames(rs[..n]) + if Failed(rs[n]) then {rs[n].name} else {}
  {
    assert rs[..n + 1] == rs[..n] + [rs[n]];
  }

  /** All fallback entries, and which addresses and names are to fall back. */
  method FallbackPhase(rs: seq<Result>)
    returns (fallbackData: map<Addr, Entry>, fallbackNodeAddrs: set<Addr>, simplifyFailedFunctions: set<string>)
    requires AllSound(rs)
    ensures fallbackData == Overlay(FallbackParts(rs)) && fallbackNodeAddrs == Overlay(FailedParts(rs)).Keys
    ensures simplifyFailedFunctions == FailedNames(rs)
  {
    fallbackData, fallbackNodeAddrs, simplifyFailedFunctions := map[], {}, {};
    ghost var all, failed := FallbackParts(rs), FailedParts(rs);
    for i := 0 to |rs|
      invariant fallbackData == Overlay(all[..i]) && fallbackNodeAddrs == Overlay(failed[..i]).Keys
      invariant simplifyFailedFunctions == FailedNames(rs[..i])
    {
      var r := rs[i];
      OverlayOneMore(all, i);
      OverlayOneMore(failed, i);
      OneMoreName(rs, i);
      fallbackData := AddFallback(fallbackData, r);
      if Failed(r) {
        TracedKeysAre(r);
        fallbackNodeAddrs := fallbackNodeAddrs + TracedKeys(r.original);
        simplifyFailedFunctions := simplifyFailedFunctions + {r.name};
      }
    }
    assert rs[..|rs|] == rs && all[..|rs|] == all && failed[..|rs|] == failed;
  }

  lemma {:induction false} FallbackCoversFailed(rs: seq<Result>)
    requires AllSound(rs) && Apart(rs)
    ensures forall x | x in Overlay(FailedParts(rs)) ::
      x in Overlay(FallbackParts(rs)) && Overlay(FallbackParts(rs))[x] == Overlay(FailedParts(rs))[x]
  {
    PartsAgree(rs);
    forall x | x in Overlay(FailedParts(rs))
      ensures x in Overlay(FallbackParts(rs)) && Overlay(FallbackParts(rs))[x] == Overlay(FailedParts(rs))[x]
    {
      OverlayComesFrom(FailedParts(rs), x);
      var i :| 0 <= i < |rs| && x in FailedParts(rs)[i] && Overlay(FailedParts(rs))[x] == FailedParts(rs)[i][x];
      OverlayHas(FallbackParts(rs), i, x);
    }
  }

  /** The entries of all functions but those whose name is among the failed ones. */
  method KeepSimplified(rs: seq<Result>, simplifyFailedFunctions: set<string>) returns (data: map<Addr, Entry>)
    requires AllSound(rs)
    ensures data == Overlay(KeptParts(rs, simplifyFailedFunctions))
  {
    data := map[];
    ghost var parts := KeptParts(rs, simplifyFailedFunctions);
    for i := 0 to |rs|
      invariant data == Overlay(parts[..i])
    {
      OverlayOneMore(parts, i);
      if rs[i].name in simplifyFailedFunctions {
        continue;
      }
      data := AddSimplified(data, rs[i]);
    }
    assert parts[..|rs|] == parts;
  }

  /** The map of one worker: simplified nodes first, then the fallback nodes on top. */
  method CreateData(rs: seq<Result>) returns (data: map<Addr, Entry>)
    requires AllSound(rs) && Apart(rs)
    ensures data == DataOf(rs)
  {
    var fallbackData, fallbackNodeAddrs, simplifyFailedFunctions := FallbackPhase(rs);
    data := KeepSimplified(rs, simplifyFailedFunctions);
    FallbackCoversFailed(rs);
    data := data + map x | x in fallbackNodeAddrs :: fallbackData[x];
    assert (map x | x in fallbackNodeAddrs :: fallbackData[x]) == Overlay(FailedParts(rs));
  }

  // ---------- What the map holds ----------

  ghost predicate Contributes(r: Result, data: map<Addr, Entry>) {
    forall x | x in Contribution(r) :: x in data && data[x] == Contribution(r)[x]
  }

  ghost predicate FromSome(rs: seq<Result>, x: Addr) {
    exists i :: 0 <= i < |rs| && x in Contribution(rs[i])
  }

  /** The entries of `data` are exactly the contributions of the functions. */
  ghost predicate HoldsAll(rs: seq<Result>, data: map<Addr, Entry>) {
    && (forall x | x in data :: FromSome(rs, x))
    && forall i | 0 <= i < |rs| :: Contributes(rs[i], data)
  }

  lemma {:induction false} FailedNameIs(rs: seq<Result>, i: nat)
    requires i < |rs| && NoNamesakes(rs)
    ensures rs[i].name in FailedNames(rs) <==> Failed(rs[i])
  {
    if rs[i].name in FailedNames(rs) {
      var r :| r in rs && Failed(r) && r.name == rs[i].name;
      var j :| 0 <= j < |rs| && rs[j] == r;
    }
  }

  lemma {:induction false} DataComesFrom(rs: seq<Result>, x: Addr)
    requires AllSound(rs) && NoNamesakes(rs) && x in DataOf(rs)
    ensures FromSome(rs, x)
  {
    var kept, failed := KeptParts(rs, FailedNames(rs)), FailedParts(rs);
    if x in Overlay(failed) {
      OverlayComesFrom(failed, x);
      var i :| 0 <= i < |rs| && x in failed[i] && Overlay(failed)[x] == failed[i][x];
      assert x in Contribution(rs[i]);
    } else {
      OverlayComesFrom(kept, x);
      var i :| 0 <= i < |rs| && x in kept[i] && Overlay(kept)[x] == kept[i][x];
      FailedNameIs(rs, i);
      assert x in Contribution(rs[i]);
    }
  }

  lemma {:induction false} DataHas(rs: seq<Result>, i: nat, x: Addr)
    requires AllSound(rs) && Apart(rs) && NoNamesakes(rs) && i < |rs| && x in Contribution(rs[i])
    ensures x in DataOf(rs) && DataOf(rs)[x] == Contribution(rs[i])[x]
  {
    var kept, failed := KeptParts(rs, FailedNames(rs)), FailedParts(rs);
    PartsAgree(rs);
    FailedNameIs(rs, i);
    if Failed(rs[i]) {
      OverlayHas(failed, i, x);
    } else {
      OverlayHas(kept, i, x);
      if x in Overlay(failed) {
        OverlayComesFrom(failed, x);
        var j :| 0 <= j < |rs| && x in failed[j] && Overlay(failed)[x] == failed[j][x];
        OneFunction(rs, rs[i], rs[j], x);
      }
    }
  }

  /** With unambiguous names the map holds what every function contributes and nothing else. */
  lemma {:induction false} DataHoldsAll(rs: seq<Result>)
    requires AllSound(rs) && Apart(rs) && NoNamesakes(rs)
    ensures HoldsAll(rs, DataOf(rs))
  {
    var data := DataOf(rs);
    forall x | x in data
      ensures FromSome(rs, x)
    {
      DataComesFrom(rs, x);
    }
    forall i | 0 <= i < |rs|
      ensures Contributes(rs[i], data)
    {
      forall x | x in Contribution(rs[i])
        ensures x in data && data[x] == Contribution(rs[i])[x]
      {
        DataHas(rs, i, x);
      }
    }
  }

  ghost predicate TracedInSome(rs: seq<Result>, x: Addr) {
    exists i :: 0 <= i < |rs| && x in InstrumentedAddrs(rs[i].original)
  }

  /** Every traced address of every function is a key, and nothing else is. */
  ghost predicate KeysComplete(rs: seq<Result>, data: map<Addr, Entry>) {
    forall x :: x in data <==> TracedInSome(rs, x)
  }

  lemma {:induction false} ContributionIsTraced(r: Result, x: Addr)
    requires Sound(r)
    ensures x in Contribution(r) <==> x in InstrumentedAddrs(r.original)
  {
    ContributionCovers(r);
  }

  lemma {:induction false} CompleteWithoutNamesakes(rs: seq<Result>, x: Addr)
    requires AllSound(rs) && Apart(rs) && NoNamesakes(rs)
    ensures x in DataOf(rs) <==> TracedInSome(rs, x)
  {
    if x in DataOf(rs) {
      DataComesFrom(rs, x);
      var i :| 0 <= i < |rs| && x in Contribution(rs[i]);
      ContributionIsTraced(rs[i], x);
    }
    if TracedInSome(rs, x) {
      var i :| 0 <= i < |rs| && x in InstrumentedAddrs(rs[i].original);
      ContributionIsTraced(rs[i], x);
      DataHas(rs, i, x);
    }
  }

  /** The map is complete exactly when no function that was simplified shares its name with one
      that failed. */
  lemma {:induction false} CompleteIffNoNamesakes(rs: seq<Result>)
    requires AllSound(rs) && Apart(rs)
    ensures KeysComplete(rs, DataOf(rs)) <==> NoNamesakes(rs)
  {
    if NoNamesakes(rs) {
      forall x
        ensures x in DataOf(rs) <==> TracedInSome(rs, x)
      {
        CompleteWithoutNamesakes(rs, x);
      }
    } else {
      var i, j :| 0 <= i < |rs| && 0 <= j < |rs| && rs[i].name == rs[j].name && Failed(rs[i]) && !Failed(rs[j]);
      NamesakeIsLost(rs, i, j);
      assert TracedInSome(rs, rs[j].original.head);
    }
  }

  /** The head of a simplified function is lost when a failed one has the same name. */
  lemma {:induction false} NamesakeIsLost(rs: seq<Result>, i: nat, j: nat)
    requires AllSound(rs) && Apart(rs) && i < |rs| && j < |rs|
    requires rs[i].name == rs[j].name && Failed(rs[i]) && !Failed(rs[j])
    ensures rs[j].original.head in InstrumentedAddrs(rs[j].original)
    ensures rs[j].original.head !in DataOf(rs)
  {
    var x := rs[j].original.head;
    OwnFallback(rs[j], x);
    ContributionCovers(rs[j]);
    assert rs[i] in rs && rs[j].name in FailedNames(rs);
    var kept, failed := KeptParts(rs, FailedNames(rs)), FailedParts(rs);
    forall k | 0 <= k < |rs|
      ensures x !in failed[k] && x !in kept[k]
    {
      if x in FallbackEntries(rs[k]) || x in SimplifiedEntries(rs[k]) {
        OneFunction(rs, rs[j], rs[k], x);
      }
    }
    OverlayAvoids(kept, x);
    OverlayAvoids(failed, x);
  }

  // ---------- Translating a trace ----------

  predicate AnyTraced(addrs: seq<Addr>, reachable: set<Addr>) {
    exists a :: a in addrs && a in reachable
  }

  /** What one traced address adds to the lines. */
  function LinesFor(data: map<Addr, Entry>, addrs: seq<Addr>, a: Addr): set<LineInfo> {
    if a !in data then {}
    else if data[a].fallback || AnyTraced(addrs, data[a].reachable) then data[a].lines
    else data[a].lines + data[a].quietLines
  }

  ghost function ReportedFor(data: map<Addr, Entry>, addrs: seq<Addr>, part: seq<Addr>): set<LineInfo> {
    set a, l | a in part && l in LinesFor(data, addrs, a) :: l
  }

  ghost function Reported(data: map<Addr, Entry>, addrs: seq<Addr>): set<LineInfo> {
    ReportedFor(data, addrs, addrs)
  }

  lemma {:induction false} ReportedOneMore(data: map<Addr, Entry>, addrs: seq<Addr>, part: seq<Addr>, a: Addr)
    ensures ReportedFor(data, addrs, part + [a]) == ReportedFor(data, addrs, part) + LinesFor(data, addrs, a)
  {
    var more := part + [a];
    assert forall b :: b in more <==> b in part || b == a;
  }

  /** Address `a` accounts for `l`: as one of its lines, or as one passed quietly, if it is no fallback
      and the trace has no address of its label. */
  ghost predicate AccountsFor(data: map<Addr, Entry>, addrs: seq<Addr>, a: Addr, l: LineInfo) {
    && a in addrs && a in data
    && (l in data[a].lines || (l in data[a].quietLines && !data[a].fallback && forall b | b in addrs :: b !in data[a].reachable))
  }

  lemma {:induction false} ReportedIs(data: map<Addr, Entry>, addrs: seq<Addr>, l: LineInfo)
    ensures l in Reported(data, addrs) <==> exists a :: AccountsFor(data, addrs, a, l)
  {
    forall a | a in addrs
      ensures l in LinesFor(data, addrs, a) <==> AccountsFor(data, addrs, a, l)
    {
    }
    if a :| AccountsFor(data, addrs, a, l) {
      assert a in addrs && l in LinesFor(data, addrs, a);
    }
  }

  /** The lines that a trace stands for; addresses without a node are passed over. */
  method Translate(data: map<Addr, Entry>, addrs: seq<Addr>) returns (lineInfos: set<LineInfo>)
    ensures lineInfos == Reported(data, addrs)
    ensures forall l :: l in lineInfos <==> exists a :: AccountsFor(data, addrs, a, l)
  {
    lineInfos := {};
    for i := 0 to |addrs|
      invariant lineInfos == ReportedFor(data, addrs, addrs[..i])
    {
      var addr := addrs[i];
      ReportedOneMore(data, addrs, addrs[..i], addr);
      assert addrs[..i + 1] == addrs[..i] + [addr];
      if addr !in data {
        continue;
      }
      var node := data[addr];
      lineInfos := lineInfos + node.lines;
      if !node.fallback && !AnyTraced(addrs, node.reachable) {
        lineInfos := lineInfos + node.quietLines;
      }
    }
    assert addrs[..|addrs|] == addrs;
    forall l
      ensures l in lineInfos <==> exists a :: AccountsFor(data, addrs, a, l)
    {
      ReportedIs(data, addrs, l);
    }
  }

  /** On any trace the simplified map reports every line that the fallback map reports. */
  lemma {:induction false} SimplifiedReportsMore(rs: seq<Result>, addrs: seq<Addr>)
    requires AllSound(rs) && Apart(rs) && NoNamesakes(rs)
    ensures Reported(Overlay(FallbackParts(rs)), addrs) <= Reported(DataOf(rs), addrs)
  {
    var fallback, data := Overlay(FallbackParts(rs)), DataOf(rs);
    forall a | a in addrs
      ensures LinesFor(fallback, addrs, a) <= LinesFor(data, addrs, a)
    {
      if a in fallback { EntryReportsMore(rs, addrs, a); }
    }
  }

  lemma {:induction false} EntryReportsMore(rs: seq<Result>, addrs: seq<Addr>, a: Addr)
    requires AllSound(rs) && Apart(rs) && NoNamesakes(rs) && a in Overlay(FallbackParts(rs))
    ensures LinesFor(Overlay(FallbackParts(rs)), addrs, a) <= LinesFor(DataOf(rs), addrs, a)
  {
    PartsAgree(rs);
    OverlayComesFrom(FallbackParts(rs), a);
    var i :| 0 <= i < |rs| && a in FallbackParts(rs)[i] && Overlay(FallbackParts(rs))[a] == FallbackParts(rs)[i][a];
    DataCovers(rs, i, a);
    FallbackLinesStay(Overlay(FallbackParts(rs)), DataOf(rs), addrs, a);
  }

  /** The map has at least the lines of the fallback entries. */
  lemma {:induction false} DataCovers(rs: seq<Result>, i: nat, a: Addr)
    requires AllSound(rs) && Apart(rs) && NoNamesakes(rs) && i < |rs| && a in FallbackEntries(rs[i])
    ensures FallbackEntries(rs[i])[a].fallback
    ensures a in DataOf(rs) && FallbackEntries(rs[i])[a].lines <= DataOf(rs)[a].lines
  {
    ContributionCovers(rs[i]);
    DataHas(rs, i, a);
  }

  lemma {:induction false} FallbackLinesStay(fallback: map<Addr, Entry>, data: map<Addr, Entry>, addrs: seq<Addr>, a: Addr)
    requires a in fallback && fallback[a].fallback && a in data && fallback[a].lines <= data[a].lines
    ensures LinesFor(fallback, addrs, a) <= LinesFor(data, addrs, a)
  {
  }

  // ---------- Many workers ----------

  /** `regions[first::step]`; a region without traced code holds no function. */
  function Strided(regions: seq<Option<Result>>, first: nat, step: nat): seq<Option<Result>>
    requires step > 0
    decreases |regions| - first
  {
    if first >= |regions| then [] else [regions[first]] + Strided(regions, first + step, step)
  }

  function Functions(regions: seq<Option<Result>>): seq<Result> {
    if regions == [] then []
    else (if regions[0] == None then [] else [regions[0].value]) + Functions(regions[1..])
  }

  lemma {:induction false} FunctionsOf(regions: seq<Option<Result>>, r: Result)
    ensures r in Functions(regions) <==> Some(r) in regions
  {
    if regions != [] {
      FunctionsOf(regions[1..], r);
      assert Some(r) in regions <==> regions[0] == Some(r) || Some(r) in regions[1..];
    }
  }

  lemma {:induction false} StridedTakes(regions: seq<Option<Result>>, first: nat, step: nat, k: nat)
    requires step > 0 && first + k * step < |regions|
    ensures regions[first + k * step] in Strided(regions, first, step)
    decreases k
  {
    if k > 0 {
      assert first + k * step == (first + step) + (k - 1) * step;
      StridedTakes(regions, first + step, step, k - 1);
    }
  }

  lemma {:induction false} StridedFrom(regions: seq<Option<Result>>, first: nat, step: nat, o: Option<Result>)
    requires step > 0 && o in Strided(regions, first, step)
    ensures o in regions
    decreases |regions| - first
  {
    if first < |regions| && o != regions[first] {
      StridedFrom(regions, first + step, step, o);
    }
  }

  /** Every region is taken by one of the workers. */
  lemma {:induction false} SomeWorkerTakes(regions: seq<Option<Result>>, step: nat, i: nat)
    requires step > 0 && i < |regions|
    ensures regions[i] in Strided(regions, i % step, step)
  {
    assert i == i % step + (i / step) * step;
    StridedTakes(regions, i % step, step, i / step);
  }

  /** The functions of worker `w` of `n`. */
  function Share(regions: seq<Option<Result>>, w: nat, n: nat): seq<Result>
    requires n > 0
  {
    Functions(Strided(regions, w, n))
  }

  ghost function WorkerData(regions: seq<Option<Result>>, n: nat): seq<map<Addr, Entry>>
    requires n > 0
  {
    seq(n, w requires 0 <= w < n => DataOf(Share(regions, w, n)))
  }

  lemma {:induction false} ShareIsPart(regions: seq<Option<Result>>, w: nat, n: nat, r: Result)
    requires n > 0 && r in Share(regions, w, n)
    ensures r in Functions(regions)
  {
    FunctionsOf(Strided(regions, w, n), r);
    StridedFrom(regions, w, n, Some(r));
    FunctionsOf(regions, r);
  }

  lemma {:induction false} SomeShareHas(regions: seq<Option<Result>>, n: nat, r: Result) returns (w: nat)
    requires n > 0 && r in Functions(regions)
    ensures w < n && r in Share(regions, w, n)
  {
    FunctionsOf(regions, r);
    var i :| 0 <= i < |regions| && regions[i] == Some(r);
    w := i % n;
    SomeWorkerTakes(regions, n, i);
    FunctionsOf(Strided(regions, w, n), r);
  }

  lemma {:induction false} ShareKeepsPromises(regions: seq<Option<Result>>, w: nat, n: nat)
    requires n > 0 && AllSound(Functions(regions)) && Apart(Functions(regions)) && NoNamesakes(Functions(regions))
    ensures AllSound(Share(regions, w, n)) && Apart(Share(regions, w, n)) && NoNamesakes(Share(regions, w, n))
  {
    forall r | r in Share(regions, w, n)
      ensures r in Functions(regions) && Sound(r)
    {
      ShareIsPart(regions, w, n, r);
    }
  }

  lemma {:induction false} InFunction(rs: seq<Result>, x: Addr) returns (r: Result)
    requires AllSound(rs) && Apart(rs) && NoNamesakes(rs) && x in DataOf(rs)
    ensures r in rs && x in Contribution(r) && DataOf(rs)[x] == Contribution(r)[x]
  {
    DataComesFrom(rs, x);
    var i :| 0 <= i < |rs| && x in Contribution(rs[i]);
    DataHas(rs, i, x);
    r := rs[i];
  }

  lemma {:induction false} OfFunction(rs: seq<Result>, r: Result, x: Addr)
    requires AllSound(rs) && Apart(rs) && NoNamesakes(rs) && r in rs && x in Contribution(r)
    ensures x in DataOf(rs) && DataOf(rs)[x] == Contribution(r)[x]
  {
    var i :| 0 <= i < |rs| && rs[i] == r;
    DataHas(rs, i, x);
  }

  /** What one worker knows is part of what a single worker would know. */
  lemma {:induction false} WorkerAgrees(regions: seq<Option<Result>>, n: nat, w: nat)
    requires n > 0 && AllSound(Functions(regions)) && Apart(Functions(regions)) && NoNamesakes(Functions(regions))
    ensures PartOf(DataOf(Share(regions, w, n)), DataOf(Functions(regions)))
  {
    ShareKeepsPromises(regions, w, n);
    forall x | x in DataOf(Share(regions, w, n))
      ensures x in DataOf(Functions(regions)) && DataOf(Functions(regions))[x] == DataOf(Share(regions, w, n))[x]
    {
      var r := InFunction(Share(regions, w, n), x);
      ShareIsPart(regions, w, n, r);
      OfFunction(Functions(regions), r, x);
    }
  }

  lemma {:induction false} WorkerKnows(regions: seq<Option<Result>>, n: nat, x: Addr)
    requires n > 0 && AllSound(Functions(regions)) && Apart(Functions(regions)) && NoNamesakes(Functions(regions))
    requires x in DataOf(Functions(regions))
    ensures InOne(WorkerData(regions, n), x)
  {
    var r := InFunction(Functions(regions), x);
    var w := SomeShareHas(regions, n, r);
    ShareKeepsPromises(regions, w, n);
    OfFunction(Share(regions, w, n), r, x);
    assert x in WorkerData(regions, n)[w];
  }

  /** The maps of any number of workers merge to the map of a single one. */
  lemma {:induction false} WorkersMerge(regions: seq<Option<Result>>, n: nat)
    requires n > 0 && AllSound(Functions(regions)) && Apart(Functions(regions)) && NoNamesakes(Functions(regions))
    ensures Overlay(WorkerData(regions, n)) == DataOf(Functions(regions))
  {
    var all, parts := DataOf(Functions(regions)), WorkerData(regions, n);
    forall w | 0 <= w < |parts|
      ensures PartOf(parts[w], all)
    {
      WorkerAgrees(regions, n, w);
    }
    forall x | x in all
      ensures InOne(parts, x)
    {
      WorkerKnows(regions, n, x);
    }
    OverlayIs(parts, all);
  }

  /** Functions of different regions trace different addresses. */
  ghost predicate RegionsApart(regions: seq<Option<Result>>) {
    forall i, j | 0 <= i < j < |regions| && regions[i].Some? && regions[j].Some? ::
      InstrumentedAddrs(regions[i].value.original) !! InstrumentedAddrs(regions[j].value.original)
  }

  lemma {:induction false} RegionsApartAreApart(regions: seq<Option<Result>>)
    requires RegionsApart(regions)
    ensures Apart(Functions(regions))
  {
    forall q, r | q in Functions(regions) && r in Functions(regions) && q != r
      ensures InstrumentedAddrs(q.original) !! InstrumentedAddrs(r.original)
    {
      FunctionsOf(regions, q);
      FunctionsOf(regions, r);
      var i :| 0 <= i < |regions| && regions[i] == Some(q);
      var j :| 0 <= j < |regions| && regions[j] == Some(r);
    }
  }

  lemma {:induction false} StridedIndex(regions: seq<Option<Result>>, first: nat, step: nat, o: Option<Result>) returns (k: nat)
    requires step > 0 && o in Strided(regions, first, step)
    ensures first + k * step < |regions| && regions[first + k * step] == o
    decreases |regions| - first
  {
    k := 0;
    if o != regions[first] {
      k := StridedIndex(regions, first + step, step, o);
      assert first + (k + 1) * step == (first + step) + k * step;
      k := k + 1;
    }
  }

  lemma {:induction false} SameRemainder(v: nat, k: nat, w: nat, l: nat, n: nat)
    requires v < n && w < n && v + k * n == w + l * n
    ensures v == w
    decreases k
  {
    OneMoreTime(k, n);
    OneMoreTime(l, n);
    if k > 0 && l > 0 { SameRemainder(v, k - 1, w, l - 1, n); }
  }

  lemma {:induction false} SameRegion(regions: seq<Option<Result>>, i: nat, j: nat, r: Result, x: Addr)
    requires RegionsApart(regions) && i < |regions| && j < |regions| && regions[i] == Some(r) && regions[j] == Some(r)
    requires x in InstrumentedAddrs(r.original)
    ensures i == j
  {
  }

  lemma {:induction false} ShareIndex(regions: seq<Option<Result>>, n: nat, w: nat, r: Result) returns (k: nat)
    requires n > 0 && r in Share(regions, w, n)
    ensures w + k * n < |regions| && regions[w + k * n] == Some(r)
  {
    FunctionsOf(Strided(regions, w, n), r);
    k := StridedIndex(regions, w, n, Some(r));
  }

  /** A function that traces something belongs to one worker only. */
  lemma {:induction false} OneWorker(regions: seq<Option<Result>>, n: nat, v: nat, w: nat, r: Result, x: Addr)
    requires RegionsApart(regions) && v < n && w < n && r in Share(regions, v, n) && r in Share(regions, w, n)
    requires x in InstrumentedAddrs(r.original)
    ensures v == w
  {
    var k := ShareIndex(regions, n, v, r);
    var l := ShareIndex(regions, n, w, r);
    SameRegion(regions, v + k * n, w + l * n, r, x);
    SameRemainder(v, k, w, l, n);
  }

  /** Among the functions of each worker, none that was simplified has the name of one that failed. */
  ghost predicate SharesUnambiguous(regions: seq<Option<Result>>, n: nat)
    requires n > 0
  {
    forall w | 0 <= w < n :: NoNamesakes(Share(regions, w, n))
  }

  lemma {:induction false} ShareIsSound(regions: seq<Option<Result>>, w: nat, n: nat)
    requires n > 0 && AllSound(Functions(regions)) && Apart(Functions(regions))
    ensures AllSound(Share(regions, w, n)) && Apart(Share(regions, w, n))
  {
    forall r | r in Share(regions, w, n)
      ensures r in Functions(regions) && Sound(r)
    {
      ShareIsPart(regions, w, n, r);
    }
  }

  /** Whatever the names, a key of the map is traced in one of the functions. */
  lemma {:induction false} KeyIsTraced(rs: seq<Result>, x: Addr) returns (r: Result)
    requires AllSound(rs) && x in DataOf(rs)
    ensures r in rs && x in InstrumentedAddrs(r.original)
  {
    var kept, failed := KeptParts(rs, FailedNames(rs)), FailedParts(rs);
    var parts := if x in Overlay(failed) then failed else kept;
    OverlayComesFrom(parts, x);
    var i :| 0 <= i < |rs| && x in parts[i] && Overlay(parts)[x] == parts[i][x];
    r := rs[i];
    ContributionCovers(r);
  }

  /** Whatever worker knows an address that `r` traces has it from `r`. */
  lemma {:induction false} WorkerEntry(regions: seq<Option<Result>>, n: nat, v: nat, r: Result, x: Addr)
    requires v < n && AllSound(Functions(regions)) && Apart(Functions(regions)) && SharesUnambiguous(regions, n)
    requires r in Functions(regions) && x in Contribution(r) && x in DataOf(Share(regions, v, n))
    ensures DataOf(Share(regions, v, n))[x] == Contribution(r)[x]
  {
    ShareIsSound(regions, v, n);
    var q := InFunction(Share(regions, v, n), x);
    ShareIsPart(regions, v, n, q);
    ContributionIsTraced(q, x);
    ContributionIsTraced(r, x);
  }

  lemma {:induction false} WorkersContribute(regions: seq<Option<Result>>, n: nat, r: Result, x: Addr)
    requires n > 0 && AllSound(Functions(regions)) && Apart(Functions(regions)) && SharesUnambiguous(regions, n)
    requires r in Functions(regions) && x in Contribution(r)
    ensures x in Overlay(WorkerData(regions, n)) && Overlay(WorkerData(regions, n))[x] == Contribution(r)[x]
  {
    var parts := WorkerData(regions, n);
    var w := SomeShareHas(regions, n, r);
    ShareIsSound(regions, w, n);
    OfFunction(Share(regions, w, n), r, x);
    OverlayKeepsKey(parts, w, x);
    OverlayComesFrom(parts, x);
    var v :| 0 <= v < n && x in parts[v] && Overlay(parts)[x] == parts[v][x];
    WorkerEntry(regions, n, v, r, x);
  }

  lemma {:induction false} WorkersFromSome(regions: seq<Option<Result>>, n: nat, x: Addr) returns (r: Result)
    requires n > 0 && AllSound(Functions(regions)) && Apart(Functions(regions)) && x in Overlay(WorkerData(regions, n))
    ensures r in Functions(regions) && x in InstrumentedAddrs(r.original)
  {
    var parts := WorkerData(regions, n);
    OverlayComesFrom(parts, x);
    var w :| 0 <= w < n && x in parts[w] && Overlay(parts)[x] == parts[w][x];
    ShareIsSound(regions, w, n);
    r := KeyIsTraced(Share(regions, w, n), x);
    ShareIsPart(regions, w, n, r);
  }

  /** Failed names are kept per worker, so the merged map is complete exactly when no worker has a
      simplified function with the name of a failed one. */
  lemma {:induction false} WorkersCompleteIffUnambiguous(regions: seq<Option<Result>>, n: nat)
    requires n > 0 && AllSound(Functions(regions)) && RegionsApart(regions)
    ensures KeysComplete(Functions(regions), Overlay(WorkerData(regions, n))) <==> SharesUnambiguous(regions, n)
  {
    var all, data := Functions(regions), Overlay(WorkerData(regions, n));
    RegionsApartAreApart(regions);
    if SharesUnambiguous(regions, n) {
      forall x
        ensures x in data <==> TracedInSome(all, x)
      {
        if x in data { var r := WorkersFromSome(regions, n, x); }
        if TracedInSome(all, x) {
          var i :| 0 <= i < |all| && x in InstrumentedAddrs(all[i].original);
          ContributionIsTraced(all[i], x);
          WorkersContribute(regions, n, all[i], x);
        }
      }
    } else {
      var w :| 0 <= w < n && !NoNamesakes(Share(regions, w, n));
      var r := WorkerLoses(regions, n, w);
      assert TracedInSome(all, r.original.head);
    }
  }

  /** The head of the namesake is in no worker's map. */
  lemma {:induction false} WorkerLoses(regions: seq<Option<Result>>, n: nat, w: nat) returns (r: Result)
    requires w < n && AllSound(Functions(regions)) && RegionsApart(regions) && !NoNamesakes(Share(regions, w, n))
    ensures r in Functions(regions) && r.original.head in InstrumentedAddrs(r.original)
    ensures r.original.head !in Overlay(WorkerData(regions, n))
  {
    var share, parts := Share(regions, w, n), WorkerData(regions, n);
    RegionsApartAreApart(regions);
    ShareIsSound(regions, w, n);
    var i, j :| 0 <= i < |share| && 0 <= j < |share| && share[i].name == share[j].name && Failed(share[i]) && !Failed(share[j]);
    r := share[j];
    var x := r.original.head;
    ShareIsPart(regions, w, n, r);
    NamesakeIsLost(share, i, j);
    forall v | 0 <= v < n
      ensures x !in parts[v]
    {
      if x in parts[v] {
        ShareIsSound(regions, v, n);
        var q := KeyIsTraced(Share(regions, v, n), x);
        ShareIsPart(regions, v, n, q);
        assert q == r;
        OneWorker(regions, n, v, w, r, x);
      }
    }
    OverlayAvoids(parts, x);
  }

  /* An instance: a function of 1001 blocks, none of which can be merged, and a small namesake */

  function Isolated(a: Addr): Block {
    Block({a}, {}, {}, {a}, {})
  }

  function IsolatedBlocks(first: int, n: nat): Graph {
    Graph(Addr(first), {}, map i: int | first <= i < first + n :: Addr(i) := Isolated(Addr(i)))
  }

  lemma {:induction false} IsolatedCount(first: int, n: nat)
    ensures |IsolatedBlocks(first, n).nodes.Keys| == n
  {
    if n > 0 {
      IsolatedCount(first, n - 1);
      assert IsolatedBlocks(first, n).nodes.Keys == IsolatedBlocks(first, n - 1).nodes.Keys + {Addr(first + n - 1)};
    }
  }

  function Untouched(name: string, g: Graph): Result {
    Result(name, g, g, map a | a in g.nodes :: Entry(g.nodes[a].lines, {}, {}, false))
  }

  lemma {:induction false} IsolatedInstrumented(first: int, n: nat)
    ensures InstrumentedAddrs(IsolatedBlocks(first, n)) == set i: int | first <= i < first + n :: Addr(i)
  {
    var g := IsolatedBlocks(first, n);
    forall i: int | first <= i < first + n
      ensures Addr(i) in InstrumentedAddrs(g)
    {
      assert Addr(i) in g.nodes && Addr(i) in g.nodes[Addr(i)].instrumented;
    }
  }

  lemma {:induction false} IsolatedLoopless(first: int, n: nat)
    ensures WithoutSelfLoops(IsolatedBlocks(first, n)) == IsolatedBlocks(first, n)
  {
    var g := IsolatedBlocks(first, n);
    forall a | a in g.nodes
      ensures WithoutSelfLoop(g.nodes[a], a) == g.nodes[a]
    {
    }
    assert WithoutSelfLoops(g).nodes == g.nodes;
  }

  lemma {:induction false} IsolatedIsLinked(first: int, n: nat)
    requires n > 0
    ensures var g := IsolatedBlocks(first, n);
            Linked(g) && Anchored(g) && OwnKeysOnly(g) && NormalForm(g)
  {
    var g := IsolatedBlocks(first, n);
    assert Addr(first) in g.nodes;
    assert forall a, b :: !Edge(g, a, b) && !BackEdge(g, a, b);
  }

  lemma {:induction false} IsolatedIsSound(name: string, first: int, n: nat)
    requires n > 0
    ensures Sound(Untouched(name, IsolatedBlocks(first, n))) && NormalForm(IsolatedBlocks(first, n))
    ensures InstrumentedAddrs(IsolatedBlocks(first, n)) == set i: int | first <= i < first + n :: Addr(i)
  {
    IsolatedIsLinked(first, n);
    IsolatedLoopless(first, n);
    IsolatedInstrumented(first, n);
    DerivesSelf(IsolatedBlocks(first, n));
  }

  lemma {:induction false} TwoAreSound(q: Result, r: Result)
    requires Sound(q) && Sound(r) && InstrumentedAddrs(q.original) !! InstrumentedAddrs(r.original)
    ensures AllSound([q, r]) && Apart([q, r])
  {
  }

  /** A thousand and one blocks make a function fail, and its one-block namesake is not in the map. */
  lemma {:induction false} NamesakeExample()
    ensures var big, small := Untouched("f", IsolatedBlocks(0, 1001)), Untouched("f", IsolatedBlocks(2000, 1));
            && AllSound([big, small]) && Apart([big, small]) && !NoNamesakes([big, small])
            && Addr(2000) in InstrumentedAddrs(small.original) && Addr(2000) !in DataOf([big, small])
  {
    var big, small := Untouched("f", IsolatedBlocks(0, 1001)), Untouched("f", IsolatedBlocks(2000, 1));
    IsolatedIsSound("f", 0, 1001);
    IsolatedIsSound("f", 2000, 1);
    IsolatedCount(0, 1001);
    IsolatedCount(2000, 1);
    TwoAreSound(big, small);
    LoseTheSecond(big, small);
  }

  /** A thousand blocks do not. */
  lemma {:induction false} ThousandBlocksPass()
    ensures Sound(Untouched("f", IsolatedBlocks(0, 1000))) && NormalForm(IsolatedBlocks(0, 1000))
    ensures !Failed(Untouched("f", IsolatedBlocks(0, 1000))) && Failed(Untouched("f", IsolatedBlocks(0, 1001)))
  {
    IsolatedIsSound("f", 0, 1000);
    IsolatedCount(0, 1000);
    IsolatedCount(0, 1001);
  }

  lemma {:induction false} LoseTheSecond(q: Result, r: Result)
    requires AllSound([q, r]) && Apart([q, r]) && q.name == r.name && Failed(q) && !Failed(r)
    ensures !NoNamesakes([q, r])
    ensures r.original.head in InstrumentedAddrs(r.original) && r.original.head !in DataOf([q, r])
  {
    var rs := [q, r];
    assert rs[0] == q && rs[1] == r;
    NamesakeIsLost(rs, 0, 1);
  }
}
