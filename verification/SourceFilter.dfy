/** Cutting functions and comments out of a source file
    (dictgen/src/utility/function_filter.py:116-251). */
module SourceFilter {
  import opened Options
  import opened Sorting

  /** From the first byte up to, but not including, the last. */
  datatype Range = Range(start: int, end: int)

  datatype Language = C | Java | Go | Python

  datatype Node = Node(kind: string, start: int, end: int, children: seq<Node>)

  /** How a function node is named; the lookup in the tree and the source is not looked into. */
  type Naming = Node -> Option<string>

  /* What is to go */

  predicate IsFunction(lang: Language, kind: string) {
    match lang
    case C => kind == "function_definition"
    case Java => kind == "method_declaration" || kind == "constructor_declaration"
    case Go => kind == "function_declaration"
    case Python => kind == "function_definition"
  }

  predicate IsComment(kind: string) {
    kind == "comment" || kind == "line_comment" || kind == "block_comment"
  }

  predicate IsOther(lang: Language, name: Naming, target: string, t: Node) {
    IsFunction(lang, t.kind) && name(t) != Some(target)
  }

  predicate Within(x: int, r: Range) {
    r.start <= x < r.end
  }

  /** What each language calls a function. */
  ghost function FunctionKinds(lang: Language): set<string> {
    match lang
    case Java => {"method_declaration", "constructor_declaration"}
    case Go => {"function_declaration"}
    case _ => {"function_definition"}
  }

  /** Byte `x` lies in a function other than the target. */
  ghost predicate InOther(lang: Language, name: Naming, target: string, t: Node, x: int) {
    || (t.kind in FunctionKinds(lang) && name(t) != Some(target) && t.start <= x < t.end)
    || exists i | 0 <= i < |t.children| :: InOther(lang, name, target, t.children[i], x)
  }

  /** Byte `x` lies in a comment. */
  ghost predicate InComment(t: Node, x: int) {
    || (t.kind in {"comment", "line_comment", "block_comment"} && t.start <= x < t.end)
    || exists i | 0 <= i < |t.children| :: InComment(t.children[i], x)
  }

  /** The parser gives every node a range inside the source. */
  ghost predicate Parsed(t: Node, size: nat) {
    0 <= t.start <= t.end <= size && forall i | 0 <= i < |t.children| :: Parsed(t.children[i], size)
  }

  ghost predicate GoodRanges(rs: seq<Range>, size: nat) {
    forall i | 0 <= i < |rs| :: 0 <= rs[i].start <= rs[i].end <= size
  }

  ghost predicate Covered(rs: seq<Range>, x: int) {
    exists i | 0 <= i < |rs| :: Within(x, rs[i])
  }

  lemma {:induction false} CoveredConcat(a: seq<Range>, b: seq<Range>, x: int)
    ensures Covered(a + b, x) <==> Covered(a, x) || Covered(b, x)
  {
    var all := a + b;
    if Covered(a, x) {
      var i :| 0 <= i < |a| && Within(x, a[i]);
      assert Within(x, all[i]);
    }
    if Covered(b, x) {
      var i :| 0 <= i < |b| && Within(x, b[i]);
      assert Within(x, all[|a| + i]);
    }
    if Covered(all, x) {
      var i :| 0 <= i < |all| && Within(x, all[i]);
      if i < |a| { assert Within(x, a[i]); } else { assert Within(x, b[i - |a|]); }
    }
  }

  /* Collecting */

  method CollectFunctionNodes(t: Node, lang: Language, name: Naming, target: string, ghost size: nat) returns (ranges: seq<Range>)
    requires Parsed(t, size)
    ensures GoodRanges(ranges, size)
    ensures forall x :: Covered(ranges, x) <==> InOther(lang, name, target, t, x)
    decreases t
  {
    ranges := [];
    if IsOther(lang, name, target, t) {
      ranges := ranges + [Range(t.start, t.end)];
      assert ranges[0] == Range(t.start, t.end);
    }
    assert forall x :: Covered(ranges, x) <==> (IsOther(lang, name, target, t) && Within(x, Range(t.start, t.end)));
    for i := 0 to |t.children|
      invariant GoodRanges(ranges, size)
      invariant forall x :: Covered(ranges, x) <==>
                  (IsOther(lang, name, target, t) && t.start <= x < t.end) ||
                  exists j | 0 <= j < i :: InOther(lang, name, target, t.children[j], x)
    {
      var more := CollectFunctionNodes(t.children[i], lang, name, target, size);
      forall x
        ensures Covered(ranges + more, x) <==> Covered(ranges, x) || Covered(more, x)
      {
        CoveredConcat(ranges, more, x);
      }
      ranges := ranges + more;
    }
  }

  method CollectCommentNodes(t: Node, ghost size: nat) returns (ranges: seq<Range>)
    requires Parsed(t, size)
    ensures GoodRanges(ranges, size)
    ensures forall x :: Covered(ranges, x) <==> InComment(t, x)
    decreases t
  {
    ranges := [];
    if IsComment(t.kind) {
      ranges := ranges + [Range(t.start, t.end)];
      assert ranges[0] == Range(t.start, t.end);
    }
    assert forall x :: Covered(ranges, x) <==> (IsComment(t.kind) && Within(x, Range(t.start, t.end)));
    for i := 0 to |t.children|
      invariant GoodRanges(ranges, size)
      invariant forall x :: Covered(ranges, x) <==>
                  (IsComment(t.kind) && t.start <= x < t.end) || exists j | 0 <= j < i :: InComment(t.children[j], x)
    {
      var more := CollectCommentNodes(t.children[i], size);
      forall x
        ensures Covered(ranges + more, x) <==> Covered(ranges, x) || Covered(more, x)
      {
        CoveredConcat(ranges, more, x);
      }
      ranges := ranges + more;
    }
  }

  /* Merging */

  function Start(r: Range): int { r.start }

  function Max(a: int, b: int): int { if a < b then b else a }

  /** In order, with at least one byte between neighbours. */
  ghost predicate Separated(rs: seq<Range>) {
    && (forall i | 0 <= i < |rs| :: rs[i].start <= rs[i].end)
    && forall i, j | 0 <= i < j < |rs| :: rs[i].end < rs[j].start
  }

  lemma {:induction false} CoveredOneMore(ranges: seq<Range>, k: nat)
    requires k < |ranges|
    ensures forall x :: Covered(ranges[..k] + [ranges[k]], x) <==> Covered(ranges[..k], x) || Within(x, ranges[k])
  {
    forall x
      ensures Covered(ranges[..k] + [ranges[k]], x) <==> Covered(ranges[..k], x) || Within(x, ranges[k])
    {
      CoveredConcat(ranges[..k], [ranges[k]], x);
      OneRange(ranges[k], x);
    }
  }

  /** `merged` covers what the first `k` ranges cover, and its last range starts no later than the next. */
  ghost predicate MergedSoFar(ranges: seq<Range>, k: nat, merged: seq<Range>, size: nat)
    requires k <= |ranges|
  {
    && merged != [] && Separated(merged) && GoodRanges(merged, size)
    && (k < |ranges| ==> merged[|merged| - 1].start <= ranges[k].start)
    && forall x :: Covered(merged, x) <==> Covered(ranges[..k], x)
  }

  /** Widens the last range, or adds one. */
  method MergeOne(before: seq<Range>, current: Range, ghost size: nat) returns (merged: seq<Range>)
    requires before != [] && Separated(before) && GoodRanges(before, size)
    requires before[|before| - 1].start <= current.start <= current.end <= size
    ensures merged != [] && Separated(merged) && GoodRanges(merged, size)
    ensures merged[|merged| - 1].start <= current.start
    ensures forall x :: Covered(merged, x) <==> Covered(before, x) || Within(x, current)
  {
    var last := before[|before| - 1];
    if current.start <= last.end {
      merged := before[..|before| - 1] + [Range(last.start, Max(last.end, current.end))];
      Widened(before, current);
    } else {
      merged := before + [current];
      Appended(before, current);
    }
  }

  method MergeNext(ranges: seq<Range>, k: nat, before: seq<Range>, ghost size: nat) returns (merged: seq<Range>)
    requires k < |ranges| && GoodRanges(ranges, size) && MergedSoFar(ranges, k, before, size)
    requires k + 1 < |ranges| ==> ranges[k].start <= ranges[k + 1].start
    ensures MergedSoFar(ranges, k + 1, merged, size)
  {
    merged := MergeOne(before, ranges[k], size);
    CoveredOneMore(ranges, k);
    assert ranges[..k + 1] == ranges[..k] + [ranges[k]];
  }

  method MergeSorted(ranges: seq<Range>, ghost size: nat) returns (merged: seq<Range>)
    requires ranges != [] && GoodRanges(ranges, size)
    requires forall k | 0 < k < |ranges| :: ranges[k - 1].start <= ranges[k].start
    ensures MergedSoFar(ranges, |ranges|, merged, size)
  {
    merged := [ranges[0]];
    assert ranges[..1] == merged;
    for k := 1 to |ranges|
      invariant MergedSoFar(ranges, k, merged, size)
    {
      merged := MergeNext(ranges, k, merged, size);
    }
  }

  method MergeRanges(given: seq<Range>, ghost size: nat) returns (merged: seq<Range>)
    requires GoodRanges(given, size)
    ensures Separated(merged) && GoodRanges(merged, size)
    ensures forall x :: Covered(merged, x) <==> Covered(given, x)
  {
    if given == [] {
      return [];
    }
    var ranges := Sort(Start, given);
    SortedRanges(given, ranges, size);
    forall k | 0 < k < |ranges|
      ensures ranges[k - 1].start <= ranges[k].start
    {
      assert Start(ranges[k - 1]) <= Start(ranges[k]);
    }
    merged := MergeSorted(ranges, size);
    assert ranges[..|ranges|] == ranges;
  }

  lemma {:induction false} OneRange(r: Range, x: int)
    ensures Covered([r], x) <==> Within(x, r)
  {
    assert [r][0] == r;
  }

  lemma {:induction false} SortedRanges(given: seq<Range>, ranges: seq<Range>, size: nat)
    requires multiset(ranges) == multiset(given) && GoodRanges(given, size)
    ensures GoodRanges(ranges, size) && forall x :: Covered(ranges, x) <==> Covered(given, x)
  {
    forall i | 0 <= i < |ranges|
      ensures ranges[i] in given
    {
      assert ranges[i] in multiset(given);
    }
    forall x | Covered(given, x)
      ensures Covered(ranges, x)
    {
      var i :| 0 <= i < |given| && Within(x, given[i]);
      assert given[i] in multiset(ranges);
    }
  }

  lemma {:induction false} Widened(merged: seq<Range>, r: Range)
    requires merged != [] && Separated(merged)
    requires merged[|merged| - 1].start <= r.start <= merged[|merged| - 1].end && r.start <= r.end
    ensures var last := merged[|merged| - 1];
            var wide := merged[..|merged| - 1] + [Range(last.start, Max(last.end, r.end))];
            Separated(wide) && forall x :: Covered(wide, x) <==> Covered(merged, x) || Within(x, r)
  {
    var init, last := merged[..|merged| - 1], merged[|merged| - 1];
    var wider := Range(last.start, Max(last.end, r.end));
    assert merged == init + [last];
    forall x
      ensures Covered(init + [wider], x) <==> Covered(merged, x) || Within(x, r)
    {
      CoveredConcat(init, [last], x);
      CoveredConcat(init, [wider], x);
      OneRange(last, x);
      OneRange(wider, x);
    }
  }

  lemma {:induction false} Appended(merged: seq<Range>, r: Range)
    requires merged != [] && Separated(merged) && merged[|merged| - 1].end < r.start <= r.end
    ensures Separated(merged + [r]) && forall x :: Covered(merged + [r], x) <==> Covered(merged, x) || Within(x, r)
  {
    forall x
      ensures Covered(merged + [r], x) <==> Covered(merged, x) || Within(x, r)
    {
      CoveredConcat(merged, [r], x);
      OneRange(r, x);
    }
  }

  /* Cutting */

  /** The bytes before `size` that are not covered, in order. */
  ghost function Uncovered(source: seq<int>, rs: seq<Range>, size: nat): seq<int>
    requires size <= |source|
  {
    if size == 0 then []
    else Uncovered(source, rs, size - 1) + if Covered(rs, size - 1) then [] else [source[size - 1]]
  }

  lemma {:induction false} OutsideStays(source: seq<int>, rs: seq<Range>, lo: nat, hi: nat)
    requires lo <= hi <= |source| && forall x | lo <= x < hi :: !Covered(rs, x)
    ensures Uncovered(source, rs, hi) == Uncovered(source, rs, lo) + source[lo..hi]
    decreases hi
  {
    if lo < hi {
      OutsideStays(source, rs, lo, hi - 1);
      assert source[lo..hi] == source[lo..hi - 1] + [source[hi - 1]];
    }
  }

  lemma {:induction false} InsideGoes(source: seq<int>, rs: seq<Range>, lo: nat, hi: nat)
    requires lo <= hi <= |source| && forall x | lo <= x < hi :: Covered(rs, x)
    ensures Uncovered(source, rs, hi) == Uncovered(source, rs, lo)
    decreases hi
  {
    if lo < hi { InsideGoes(source, rs, lo, hi - 1); }
  }

  /** Between two ranges nothing is covered; in a range everything is. */
  lemma {:induction false} AroundRange(source: seq<int>, rs: seq<Range>, k: nat, from: nat)
    requires Separated(rs) && GoodRanges(rs, |source|) && k < |rs| && from == (if k == 0 then 0 else rs[k - 1].end)
    ensures from <= rs[k].start
    ensures Uncovered(source, rs, rs[k].end) == Uncovered(source, rs, from) + source[from..rs[k].start]
  {
    forall x | from <= x < rs[k].start
      ensures !Covered(rs, x)
    {
      forall i | 0 <= i < |rs|
        ensures !Within(x, rs[i])
      {
        if i < k - 1 { assert rs[i].end < rs[k - 1].start; }
        if i > k { assert rs[k].end < rs[i].start; }
      }
    }
    OutsideStays(source, rs, from, rs[k].start);
    forall x | rs[k].start <= x < rs[k].end
      ensures Covered(rs, x)
    {
      assert Within(x, rs[k]);
    }
    InsideGoes(source, rs, rs[k].start, rs[k].end);
  }

  lemma {:induction false} NothingAfterLast(rs: seq<Range>, x: int)
    requires Separated(rs) && x >= if rs == [] then 0 else rs[|rs| - 1].end
    ensures !Covered(rs, x)
  {
    forall i | 0 <= i < |rs|
      ensures !Within(x, rs[i])
    {
      if i < |rs| - 1 { assert rs[i].end < rs[|rs| - 1].start; }
    }
  }

  lemma {:induction false} AfterLast(source: seq<int>, rs: seq<Range>, from: nat)
    requires Separated(rs) && GoodRanges(rs, |source|) && from == (if rs == [] then 0 else rs[|rs| - 1].end)
    ensures from <= |source| && Uncovered(source, rs, |source|) == Uncovered(source, rs, from) + source[from..]
  {
    forall x | from <= x < |source|
      ensures !Covered(rs, x)
    {
      NothingAfterLast(rs, x);
    }
    OutsideStays(source, rs, from, |source|);
    assert source[from..|source|] == source[from..];
  }

  method RemoveRanges(source: seq<int>, ranges: seq<Range>) returns (kept: seq<int>)
    requires Separated(ranges) && GoodRanges(ranges, |source|)
    ensures kept == Uncovered(source, ranges, |source|)
  {
    kept := [];
    var lastIndex := 0;
    for k := 0 to |ranges|
      invariant 0 <= lastIndex <= |source|
      invariant lastIndex == if k == 0 then 0 else ranges[k - 1].end
      invariant kept == Uncovered(source, ranges, lastIndex)
    {
      AroundRange(source, ranges, k, lastIndex);
      kept := kept + source[lastIndex..ranges[k].start];
      lastIndex := ranges[k].end;
    }
    AfterLast(source, ranges, lastIndex);
    kept := kept + source[lastIndex..];
  }

  /* All together */

  /** The first `size` bytes without those in other functions and in comments, in order. */
  ghost function Filtered(source: seq<int>, root: Node, lang: Language, name: Naming, target: string, size: nat): seq<int>
    requires size <= |source|
  {
    if size == 0 then []
    else
      Filtered(source, root, lang, name, target, size - 1) +
      if InOther(lang, name, target, root, size - 1) || InComment(root, size - 1) then [] else [source[size - 1]]
  }

  lemma {:induction false} FilteredIsUncovered(source: seq<int>, root: Node, lang: Language, name: Naming, target: string, rs: seq<Range>, size: nat)
    requires size <= |source| && forall x :: Covered(rs, x) <==> InOther(lang, name, target, root, x) || InComment(root, x)
    ensures Filtered(source, root, lang, name, target, size) == Uncovered(source, rs, size)
  {
    if size > 0 { FilteredIsUncovered(source, root, lang, name, target, rs, size - 1); }
  }

  /** For any tree, exactly the bytes inside no other function and no comment are left, in order. */
  method ExtractFunctionAndGlobals(source: seq<int>, root: Node, lang: Language, name: Naming, target: string) returns (kept: seq<int>)
    requires Parsed(root, |source|)
    ensures kept == Filtered(source, root, lang, name, target, |source|)
  {
    var removals := CollectFunctionNodes(root, lang, name, target, |source|);
    var comments := CollectCommentNodes(root, |source|);
    forall x
      ensures Covered(removals + comments, x) <==> Covered(removals, x) || Covered(comments, x)
    {
      CoveredConcat(removals, comments, x);
    }
    var merged := MergeRanges(removals + comments, |source|);
    kept := RemoveRanges(source, merged);
    FilteredIsUncovered(source, root, lang, name, target, merged, |source|);
  }
}
