/** The coverage index over sources and lines (fuzzdb/src/db.rs). */
module Coverage {
  import opened Options
  import opened Sorting
  import opened SetChoice

  datatype Line = Line(num: int)

  function Num(l: Line): int { l.num }

  datatype CovItem = CovItem(src: string, lines: seq<Line>)

  /** One member of a coverage file; what does not parse as an item is passed over. */
  datatype Entry = Entry(func: string, item: Option<CovItem>)

  datatype Cov = Cov(funcs: map<string, CovItem>, srcs: map<string, seq<Line>>)

  /* The reference: plain sums and scans */

  /** All lines the entries have for a source. */
  function LinesOf(entries: seq<Entry>, src: string): seq<Line> {
    if entries == [] then []
    else
      var last := entries[|entries| - 1];
      LinesOf(entries[..|entries| - 1], src) + if last.item.Some? && last.item.value.src == src then last.item.value.lines else []
  }

  predicate Mentions(entries: seq<Entry>, src: string) {
    exists i | 0 <= i < |entries| :: entries[i].item.Some? && entries[i].item.value.src == src
  }

  /** A scan over functions and their lines. */
  predicate SomeFunctionHits(entries: seq<Entry>, src: string, start: int, end: int) {
    exists i, j | 0 <= i < |entries| && entries[i].item.Some? && 0 <= j < |entries[i].item.value.lines| ::
      entries[i].item.value.src == src && start <= entries[i].item.value.lines[j].num <= end
  }

  lemma {:induction false} LinesOfHas(entries: seq<Entry>, src: string, x: Line)
    ensures x in LinesOf(entries, src) <==>
            exists i | 0 <= i < |entries| :: entries[i].item.Some? && entries[i].item.value.src == src && x in entries[i].item.value.lines
  {
    if entries != [] {
      var init, last := entries[..|entries| - 1], entries[|entries| - 1];
      LinesOfHas(init, src, x);
      if x in LinesOf(init, src) {
        var i :| 0 <= i < |init| && init[i].item.Some? && init[i].item.value.src == src && x in init[i].item.value.lines;
        assert entries[i] == init[i];
      }
      forall i | 0 <= i < |entries| - 1 && entries[i].item.Some? && entries[i].item.value.src == src && x in entries[i].item.value.lines
        ensures x in LinesOf(init, src)
      {
        assert init[i] == entries[i];
      }
    }
  }

  /* Reading one file */

  ghost predicate Sorted(lines: seq<Line>) {
    Ordered(Num, lines)
  }

  /** The index of one file: for each source the sorted lines of all its functions. */
  ghost predicate Indexes(entries: seq<Entry>, srcs: map<string, seq<Line>>) {
    forall src {:trigger src in srcs} ::
      if src in srcs then Mentions(entries, src) && multiset(srcs[src]) == multiset(LinesOf(entries, src))
      else !Mentions(entries, src)
  }

  ghost predicate AllSorted(srcs: map<string, seq<Line>>) {
    forall src | src in srcs :: Sorted(srcs[src])
  }

  /** The item kept for a function: the last that parses, if a name comes twice. */
  function ItemOf(entries: seq<Entry>, func: string): Option<CovItem> {
    if entries == [] then None
    else
      var last := entries[|entries| - 1];
      if last.func == func && last.item.Some? then last.item else ItemOf(entries[..|entries| - 1], func)
  }

  ghost predicate Keeps(entries: seq<Entry>, funcs: map<string, CovItem>) {
    forall f {:trigger f in funcs} :: ItemOf(entries, f) == if f in funcs then Some(funcs[f]) else None
  }

  /** What is kept is the last item of the name that parses. */
  lemma {:induction false} ItemIsLast(entries: seq<Entry>, func: string)
    ensures ItemOf(entries, func).None? <==> forall i | 0 <= i < |entries| && entries[i].func == func :: entries[i].item.None?
    ensures forall i | 0 <= i < |entries| && entries[i].func == func && entries[i].item.Some? &&
                       (forall j | i < j < |entries| && entries[j].func == func :: entries[j].item.None?) ::
              ItemOf(entries, func) == entries[i].item
  {
    if entries != [] {
      var init := entries[..|entries| - 1];
      ItemIsLast(init, func);
      assert forall i | 0 <= i < |init| :: init[i] == entries[i];
    }
  }

  method JsonToCov(file: Option<seq<Entry>>) returns (cov: Option<Cov>)
    ensures cov.Some? <==> file.Some?
    ensures cov.Some? ==> Indexes(file.value, cov.value.srcs) && AllSorted(cov.value.srcs) && Keeps(file.value, cov.value.funcs)
  {
    if file.None? {
      return None;
    }
    var entries := file.value;
    var funcs: map<string, CovItem>, srcs: map<string, seq<Line>> := map[], map[];
    for i := 0 to |entries|
      invariant Indexes(entries[..i], srcs) && Keeps(entries[..i], funcs)
    {
      assert entries[..i + 1][..i] == entries[..i];
      IndexOneMore(entries[..i], srcs, entries[i]);
      assert entries[..i + 1] == entries[..i] + [entries[i]];
      if entries[i].item.Some? {
        var item := entries[i].item.value;
        srcs := srcs[item.src := (if item.src in srcs then srcs[item.src] else []) + item.lines];
        funcs := funcs[entries[i].func := item];
      }
    }
    assert entries[..|entries|] == entries;
    srcs := map src | src in srcs :: Sort(Num, srcs[src]);
    cov := Some(Cov(funcs, srcs));
  }

  lemma {:induction false} IndexOneMore(entries: seq<Entry>, srcs: map<string, seq<Line>>, e: Entry)
    requires Indexes(entries, srcs)
    ensures Indexes(entries + [e],
                    if e.item.None? then srcs
                    else srcs[e.item.value.src := (if e.item.value.src in srcs then srcs[e.item.value.src] else []) + e.item.value.lines])
  {
    var more := entries + [e];
    assert more[..|entries|] == entries;
    forall src
      ensures Mentions(more, src) <==> Mentions(entries, src) || (e.item.Some? && e.item.value.src == src)
      ensures !Mentions(entries, src) ==> LinesOf(entries, src) == []
    {
      MentionsOneMore(entries, e, src);
      if !Mentions(entries, src) { NothingUnmentioned(entries, src); }
    }
  }

  lemma {:induction false} MentionsOneMore(entries: seq<Entry>, e: Entry, src: string)
    ensures Mentions(entries + [e], src) <==> Mentions(entries, src) || (e.item.Some? && e.item.value.src == src)
  {
    var more := entries + [e];
    if Mentions(entries, src) {
      var i :| 0 <= i < |entries| && entries[i].item.Some? && entries[i].item.value.src == src;
      assert more[i] == entries[i];
    }
    assert more[|entries|] == e;
  }

  lemma {:induction false} NothingUnmentioned(entries: seq<Entry>, src: string)
    requires !Mentions(entries, src)
    ensures LinesOf(entries, src) == []
  {
    if entries != [] {
      var init, last := entries[..|entries| - 1], entries[|entries| - 1];
      assert entries == init + [last];
      MentionsOneMore(init, last, src);
      NothingUnmentioned(init, src);
    }
  }

  lemma {:induction false} LinesOfConcat(a: seq<Entry>, b: seq<Entry>, src: string)
    ensures LinesOf(a + b, src) == LinesOf(a, src) + LinesOf(b, src)
    decreases |b|
  {
    if b == [] {
      assert a + b == a;
    } else {
      var init, last := b[..|b| - 1], b[|b| - 1];
      LinesOfConcat(a, init, src);
      assert (a + b)[..|a + b| - 1] == a + init && (a + b)[|a + b| - 1] == last;
      var more := if last.item.Some? && last.item.value.src == src then last.item.value.lines else [];
      assert LinesOf(a + b, src) == (LinesOf(a, src) + LinesOf(init, src)) + more;
      assert LinesOf(b, src) == LinesOf(init, src) + more;
    }
  }

  lemma {:induction false} MentionsConcat(a: seq<Entry>, b: seq<Entry>, src: string)
    ensures Mentions(a + b, src) <==> Mentions(a, src) || Mentions(b, src)
  {
    var all := a + b;
    if Mentions(a, src) {
      var i :| 0 <= i < |a| && a[i].item.Some? && a[i].item.value.src == src;
      assert all[i] == a[i];
    }
    if Mentions(b, src) {
      var i :| 0 <= i < |b| && b[i].item.Some? && b[i].item.value.src == src;
      assert all[|a| + i] == b[i];
    }
  }

  /* Range queries */

  /** `binary_search` of the library: some place of `x`, or where it would have to go. */
  method BinarySearch(lines: seq<Line>, x: int) returns (found: bool, at: nat)
    requires Sorted(lines)
    ensures at <= |lines|
    ensures found ==> at < |lines| && lines[at].num == x
    ensures !found ==> (forall i | 0 <= i < at :: lines[i].num < x) && forall i | at <= i < |lines| :: x < lines[i].num
  {
    var low, high: nat := 0, |lines|;
    while low < high
      invariant low <= high <= |lines|
      invariant forall i | 0 <= i < low :: lines[i].num < x
      invariant forall i | high <= i < |lines| :: x < lines[i].num
      decreases high - low
    {
      var mid := low + (high - low) / 2;
      assert forall i | 0 <= i < |lines| :: (i <= mid ==> Num(lines[i]) <= Num(lines[mid])) && (mid <= i ==> Num(lines[mid]) <= Num(lines[i]));
      if lines[mid].num < x {
        low := mid + 1;
      } else if x < lines[mid].num {
        high := mid;
      } else {
        return true, mid;
      }
    }
    return false, low;
  }

  /** On any bounds: `start` itself is a line, or a line lies between the bounds. */
  method HasLineInRange(lines: seq<Line>, start: int, end: int) returns (r: bool)
    requires Sorted(lines)
    ensures r <==> exists l | l in lines :: l.num == start || start <= l.num <= end
  {
    var found, at := BinarySearch(lines, start);
    r := found || (at < |lines| && lines[at].num <= end);
    if found || at < |lines| { assert lines[at] in lines; }
    forall l | l in lines && (l.num == start || start <= l.num <= end)
      ensures r
    {
      var i :| 0 <= i < |lines| && lines[i] == l;
      if !found { assert Num(lines[at]) <= Num(lines[i]); }
    }
  }

  /** For `start <= end`, the indexed lines of a source answer as a scan of its functions does. */
  lemma {:induction false} IndexAnswersAsScan(entries: seq<Entry>, srcs: map<string, seq<Line>>, src: string, start: int, end: int)
    requires Indexes(entries, srcs) && start <= end
    ensures SomeFunctionHits(entries, src, start, end) <==>
            src in srcs && exists l | l in srcs[src] :: l.num == start || start <= l.num <= end
  {
    if SomeFunctionHits(entries, src, start, end) {
      var i, j :| 0 <= i < |entries| && entries[i].item.Some? && 0 <= j < |entries[i].item.value.lines| &&
                  entries[i].item.value.src == src && start <= entries[i].item.value.lines[j].num <= end;
      var l := entries[i].item.value.lines[j];
      LinesOfHas(entries, src, l);
      assert src in srcs;
      assert l in multiset(srcs[src]);
    }
    if src in srcs {
      forall l | l in srcs[src] && (l.num == start || start <= l.num <= end)
        ensures SomeFunctionHits(entries, src, start, end)
      {
        assert l in multiset(srcs[src]);
        assert l in LinesOf(entries, src);
        LinesOfHas(entries, src, l);
      }
    }
  }

  method HasSrcCovInRange(cov: Cov, src: string, start: int, end: int, ghost entries: seq<Entry>) returns (r: bool)
    requires Indexes(entries, cov.srcs) && AllSorted(cov.srcs) && start <= end
    ensures r <==> SomeFunctionHits(entries, src, start, end)
  {
    IndexAnswersAsScan(entries, cov.srcs, src, start, end);
    if src in cov.srcs {
      r := HasLineInRange(cov.srcs[src], start, end);
    } else {
      r := false;
    }
  }

  /* The index over all loaded files */

  datatype Load = Load(seed: string, entries: seq<Entry>)

  /** A call: the seed asked for, and what its file holds at that moment, if it can be read. */
  datatype Call = Call(seed: string, file: Option<seq<Entry>>)

  function AllEntries(loads: seq<Load>): seq<Entry> {
    if loads == [] then [] else AllEntries(loads[..|loads| - 1]) + loads[|loads| - 1].entries
  }

  predicate IsLoaded(loads: seq<Load>, seed: string) {
    exists i | 0 <= i < |loads| :: loads[i].seed == seed
  }

  /** Of every seed, the first call that could read its file. */
  function FirstLoads(calls: seq<Call>): seq<Load> {
    if calls == [] then []
    else
      var before, last := FirstLoads(calls[..|calls| - 1]), calls[|calls| - 1];
      if last.file.None? || IsLoaded(before, last.seed) then before else before + [Load(last.seed, last.file.value)]
  }

  class FuzzDB {
    var covCache: map<string, Cov>
    var accSrcCov: map<string, seq<Line>>
    ghost var loads: seq<Load>

    ghost predicate Valid()
      reads this
    {
      && Indexes(AllEntries(loads), accSrcCov) && AllSorted(accSrcCov)
      && (forall seed :: seed in covCache <==> IsLoaded(loads, seed))
      && forall i | 0 <= i < |loads| ::
           && loads[i].seed in covCache && Indexes(loads[i].entries, covCache[loads[i].seed].srcs) && AllSorted(covCache[loads[i].seed].srcs)
           && Keeps(loads[i].entries, covCache[loads[i].seed].funcs)
    }

    constructor ()
      ensures Valid() && loads == []
    {
      covCache, accSrcCov, loads := map[], map[], [];
    }

    method LoadCov(call: Call) returns (cov: Option<Cov>)
      requires Valid()
      modifies this
      ensures Valid()
      ensures loads == old(loads) + if call.file.None? || IsLoaded(old(loads), call.seed) then [] else [Load(call.seed, call.file.value)]
      ensures cov.Some? <==> IsLoaded(loads, call.seed)
      ensures cov.Some? ==> cov.value == covCache[call.seed]
    {
      if call.seed in covCache {
        return Some(covCache[call.seed]);
      }
      cov := JsonToCov(call.file);
      if cov.None? {
        return None;
      }
      ghost var before := accSrcCov;
      Accumulate(cov.value.srcs);
      AccumulatedIndexes(AllEntries(loads), call.file.value, before, cov.value.srcs, accSrcCov);
      covCache := covCache[call.seed := cov.value];
      loads := loads + [Load(call.seed, call.file.value)];
    }

    /** Any sequence of calls, with repeats and files that cannot be read. */
    method LoadAll(calls: seq<Call>)
      requires Valid() && loads == []
      modifies this
      ensures Valid() && loads == FirstLoads(calls)
      ensures forall src | src in accSrcCov :: accSrcCov[src] == Sort(Num, LinesOf(AllEntries(FirstLoads(calls)), src))
    {
      for i := 0 to |calls|
        invariant Valid() && loads == FirstLoads(calls[..i])
      {
        assert calls[..i + 1][..i] == calls[..i];
        var _ := LoadCov(calls[i]);
      }
      assert calls[..|calls|] == calls;
      forall src | src in accSrcCov
        ensures accSrcCov[src] == Sort(Num, LinesOf(AllEntries(loads), src))
      {
        OrderedIsUnique(Num, accSrcCov[src], Sort(Num, LinesOf(AllEntries(loads), src)));
      }
    }

    method HasAccSrcCovInRange(src: string, start: int, end: int) returns (r: bool)
      requires Valid() && start <= end
      ensures r <==> SomeFunctionHits(AllEntries(loads), src, start, end)
    {
      IndexAnswersAsScan(AllEntries(loads), accSrcCov, src, start, end);
      if src in accSrcCov {
        r := HasLineInRange(accSrcCov[src], start, end);
      } else {
        r := false;
      }
    }

    method Accumulate(srcs: map<string, seq<Line>>)
      modifies `accSrcCov
      ensures Accumulated(old(accSrcCov), srcs, srcs.Keys, accSrcCov)
    {
      var todo := srcs.Keys;
      while todo != {}
        invariant todo <= srcs.Keys && Accumulated(old(accSrcCov), srcs, srcs.Keys - todo, accSrcCov)
        decreases |todo|
      {
        var src := Pick(todo);
        var lines := if src in accSrcCov then accSrcCov[src] else [];
        accSrcCov := accSrcCov[src := Sort(Num, lines + srcs[src])];
        todo := todo - {src};
      }
    }
  }

  ghost predicate Accumulated(before: map<string, seq<Line>>, srcs: map<string, seq<Line>>, done: set<string>, after: map<string, seq<Line>>) {
    forall src {:trigger src in after} ::
      if src in done && src in srcs then
        src in after && Sorted(after[src]) && multiset(after[src]) == multiset(if src in before then before[src] else []) + multiset(srcs[src])
      else (src in after <==> src in before) && (src in after ==> after[src] == before[src])
  }

  lemma {:induction false} AccumulatedIndexes(entries: seq<Entry>, more: seq<Entry>, before: map<string, seq<Line>>, srcs: map<string, seq<Line>>, after: map<string, seq<Line>>)
    requires Indexes(entries, before) && Indexes(more, srcs) && Accumulated(before, srcs, srcs.Keys, after)
    ensures Indexes(entries + more, after)
  {
    forall src
      ensures if src in after then Mentions(entries + more, src) && multiset(after[src]) == multiset(LinesOf(entries + more, src))
              else !Mentions(entries + more, src)
    {
      MentionsConcat(entries, more, src);
      LinesOfConcat(entries, more, src);
      if !Mentions(entries, src) { NothingUnmentioned(entries, src); }
      if !Mentions(more, src) { NothingUnmentioned(more, src); }
    }
  }

  /** A seed is loaded at most once, and exactly if some call could read its file. */
  lemma {:induction false} EachSeedOnce(calls: seq<Call>)
    ensures forall i, j | 0 <= i < j < |FirstLoads(calls)| :: FirstLoads(calls)[i].seed != FirstLoads(calls)[j].seed
    ensures forall seed :: IsLoaded(FirstLoads(calls), seed) <==> exists i | 0 <= i < |calls| :: calls[i].seed == seed && calls[i].file.Some?
  {
    if calls != [] {
      var init, last := calls[..|calls| - 1], calls[|calls| - 1];
      EachSeedOnce(init);
      var before, after := FirstLoads(init), FirstLoads(calls);
      forall seed
        ensures IsLoaded(after, seed) <==> IsLoaded(before, seed) || (last.seed == seed && last.file.Some?)
        ensures (exists i | 0 <= i < |calls| :: calls[i].seed == seed && calls[i].file.Some?) <==>
                (exists i | 0 <= i < |init| :: init[i].seed == seed && init[i].file.Some?) || (last.seed == seed && last.file.Some?)
      {
        if after != before {
          assert after[|before|].seed == last.seed;
          assert IsLoaded(before, seed) ==> exists i | 0 <= i < |after| :: after[i].seed == seed by {
            if IsLoaded(before, seed) {
              var i :| 0 <= i < |before| && before[i].seed == seed;
              assert after[i].seed == seed;
            }
          }
        }
        forall i | 0 <= i < |init| && init[i].seed == seed && init[i].file.Some?
          ensures exists j | 0 <= j < |calls| :: calls[j].seed == seed && calls[j].file.Some?
        {
          assert calls[i] == init[i];
        }
        forall i | 0 <= i < |calls| - 1 && calls[i].seed == seed && calls[i].file.Some?
          ensures exists j | 0 <= j < |init| :: init[j].seed == seed && init[j].file.Some?
        {
          assert init[i] == calls[i];
        }
      }
    }
  }

  /** What counts for a seed is the file as its first successful call found it. */
  lemma {:induction false} FirstLoadCounts(calls: seq<Call>, load: Load)
    ensures load in FirstLoads(calls) <==>
            exists i :: 0 <= i < |calls| && calls[i] == Call(load.seed, Some(load.entries)) &&
                        forall j | 0 <= j < i :: !(calls[j].seed == load.seed && calls[j].file.Some?)
  {
    if calls != [] {
      var init, last := calls[..|calls| - 1], calls[|calls| - 1];
      var before := FirstLoads(init);
      FirstLoadCounts(init, load);
      EachSeedOnce(init);
      assert forall i | 0 <= i < |init| :: init[i] == calls[i];
      assert IsLoaded(before, last.seed) <==> exists j | 0 <= j < |init| :: init[j].seed == last.seed && init[j].file.Some?;
      if last == Call(load.seed, Some(load.entries)) && !IsLoaded(before, last.seed) {
        assert calls[|init|] == last;
        assert load in FirstLoads(calls);
      }
    }
  }
}
