# Verified models of the CRS analysis cores

This project models the hardest parts of the repository in Dafny and proves what they are for.
Each core has its own modules.  Code that changes objects or lists step by step is modelled by
classes and methods with loops, each tied to a function of the old state; the properties are
lemmas about those functions.

* **Control-flow graphs** (`bin/symbolizer`).  `BlockBuilder` cuts a listing into blocks, `FlowGraph`,
  `GraphPayload` and `GraphSearch` are the theory of the three rewrite rules and the two searches,
  `CfgSimplifier` is the program on node objects, `AddressMap` (with `MapOverlay`) assembles and
  reads the map from traced addresses to lines, `Listings` is the whole way from listings to the map,
  and `Traces` says when what is read from it is right.  Which redex fires, and in which order sets
  are walked, is left open everywhere, so every statement holds for any order.
* **Schemas** (`testlang`).  `Schema` is the data; `StructuralHash` is the hash by plain recursion,
  `HashMemo` the memoised hasher, `HashReferences` what it has to look up, `HashInvariance` what the
  hash does not see and `HashSensitivity` what it does; `IntRanges` and `Layout` are the range and
  minimum-size analyses, `RangeMeaning` and `MinimumTight` say what they compute, `MissedValues` and
  `MinimumLimits` where they fail; `Unroll` and `UnrollMinSize` are the array unrolling;
  `AstNodes` and `AstMetadata` are the numbered tree, its search and its reference metadata.
  `Intervals` is the range-set library, and `TextNumbers` reads integers from text.
* **Scheduler** (`run_parallel.py`), **Coverage** (`db.rs`) and **SourceFilter** (`function_filter.py`).
* `Options`, `SetChoice`, `Sorting` and `Regrouping` hold what several modules share.

Run `dafny verify dfyconfig.toml` to check everything.

## What the models take as given

* Addresses within one listing are distinct, every listing has an instruction, and functions of one
  binary have disjoint addresses.  A region is passed over if none of its instructions is traced.
  What the text tests of the disassembly loop say of an instruction (is it a jump, a return, traced;
  its direct target) is part of the instruction, and so is where control really goes after it.  Every
  real direct jump has one of the mnemonics the loop knows.  What the symbolizer says of an address
  is a parameter.
* The hash function is a parameter of which nothing is assumed, but for `HashSensitivity`, where it
  confuses no two inputs.  Names of fields are distinct within
  a record and constant ranges do not run downwards, as the validator demands; of two records with
  one name the later counts, as in the program's map.
* A type id stands for a field or record by a given table.  A coverage file is a list of members at
  the moment it is read.  A syntax tree gives each node a range inside the source, and the lookup of
  a function's name is a parameter.
* What tasks answer when they are polled is a parameter of each scheduler round, and a run is as long
  as the list of answers.

## What came out differently

* Functions that fail to simplify are recorded by name, so a function that shares its name with a
  failed one is lost; `AddressMap.CompleteIffNoNamesakes` gives the exact condition.
* Failed names are kept per worker, so the merged map can be complete where a single worker's is
  not: it is exactly if no worker has such a pair (`AddressMap.WorkersCompleteIffUnambiguous`).
* Block-level paths are those of the instructions exactly if control goes on inside every block, and
  the successors recorded at the ends of blocks connect what is really connected
  (`BlockBuilder.BlocksAreFaithful`).  A return in the middle of a block breaks the first
  (`BlockBuilder.ReturnInsideBlock`), a call whose symbol contains `jmp` before a jump target the
  second (`BlockBuilder.CallOfSetjmp`).
* Forward labels name blocks by key, and a block can own a traced address while its key is none.  A
  trace through such a block does not match, and lines are reported as passed quietly
  (`Traces.UntracedKeyExample`).  `Traces.LabelsAreExactIffKeysTraced` is the exact condition.
* In a union, the minimum size counts an array alternative as one item, although it may have none.
  `Layout.MinimumIsLowerBound` shows the minimum is a lower bound exactly if this does not matter, and
  `MinimumLimits.EmptyAlternativeFails` is a union where it does.
  The validator admits only record fields in unions (`testlang/src/postprocess/validation.rs:1526-1532`),
  so with the next two premises the bound holds for validated schemas (`Layout.ValidMinimumIsLowerBound`).
* An array length that is a reference is looked up in the item record.  The bound is proved where that
  record has no field of this name, or where the least length found there is no larger than the one
  that is meant (`LengthsFit`).  For a field of constants this is exactly when the length is right
  (`MinimumLimits.BorrowedLengthIsExact`); `MinimumLimits.BorrowedLengthFails` has minimum 6 for 1 byte.
* A formatted string field may list integers beside texts
  (`testlang/src/postprocess/validation.rs:675-687`).  The texts have no range, although the parser reads
  sizes from them: a list of "1" and 5 gives 5, and the minimum 6 for an instance of 2 bytes
  (`MinimumLimits.MixedListFails`).  The same holds for an entry that is a reference to a field without
  values (`MissedValues.SevenIsMissed`).  Where all entries are like that the set is empty, which
  callers take as no restriction.  The bound is proved for lists whose ranges speak for them (`Clear`:
  beside entries with ranges, no reference without them and no text whose integer they leave out).
  `MissedValues.MissesIffLeftOut` says exactly when a value is missed, for a field and references on
  which no other field depends; `MissedValues.PinnedIsNotMissed` shows why that is needed.
* For `start > end` the coverage queries still answer true when `start` itself is covered;
  `Coverage.HasLineInRange` states the answer for all bounds.

## Model

| member | source | states |
|---|---|---|
| FlowGraph.SimplificationPreservesReachability | bin/symbolizer/cfg_analyzer.py:259-410 | for any graph and any order of rewrites, a surviving block reaches another in the final graph exactly when it did in the original one |
| FlowGraph.RuleEliminates | bin/symbolizer/cfg_analyzer.py:292-410 | each of the three rules followed by the self-loop cleanup is one operation on edges: a block goes, and two others are linked exactly if they were, or if an edge led through the one that went |
| FlowGraph.MergeEliminates | bin/symbolizer/cfg_analyzer.py:369-410 | merging along an edge, in either direction and inside cycles, eliminates exactly the dropped block |
| FlowGraph.SkipEliminates | bin/symbolizer/cfg_analyzer.py:353-364 | bypassing a block eliminates it |
| FlowGraph.RunShortcuts | bin/symbolizer/cfg_analyzer.py:270-290 | closed form of a whole run: an edge of the result is a path of the original whose inner blocks have all been removed |
| FlowGraph.RewriteOrderIsIrrelevant | bin/symbolizer/cfg_analyzer.py:270-290 | two runs that keep the same blocks end with the same edges, whatever rules fired in between |
| FlowGraph.RulePreservesWellFormed | bin/symbolizer/cfg_analyzer.py:206-228 | one rule and its cleanup keep edges symmetric and closed, no self loops, head present and instrumented, tails present without successors, and a head without predecessors stays so |
| FlowGraph.RunPreservesWellFormed | bin/symbolizer/cfg_analyzer.py:206-228 | the same for every run |
| FlowGraph.LoopsGone | bin/symbolizer/cfg_analyzer.py:259-268 | the first cleanup makes any linked, anchored graph well formed |
| FlowGraph.FiredAndCleaned | bin/symbolizer/cfg_analyzer.py:270-290 | a fired rule keeps the run going and leaves exactly one block fewer, which is why the loop ends |
| GraphPayload.RuleKeepsPayload | bin/symbolizer/cfg_analyzer.py:353-404 | no rule loses or invents a traced address, an address or a line; a traced address stays with one block, whose lines only grow |
| GraphPayload.SimplificationConserves | bin/symbolizer/cfg_analyzer.py:270-410 | conservation over every run: traced addresses, addresses and lines in total, and the lines shown for each traced address |
| GraphPayload.UninstrumentedDeadEndOrCycle | bin/symbolizer/cfg_analyzer.py:270-367 | in the final graph every uninstrumented block leads, through uninstrumented blocks alone, to a block without successors or into a cycle |
| GraphPayload.NormalFormMeans | bin/symbolizer/cfg_analyzer.py:292-351 | what a final graph has no more: a single-entry successor that is no tail and has no line of its own, two blocks that always follow each other, an uninstrumented block before instrumented ones only |
| GraphPayload.ContractKeeps | bin/symbolizer/cfg_analyzer.py:308-329 | of two blocks that always follow each other, an instrumented first one stays, and otherwise the second one |
| GraphPayload.AbsorbAddsNoLine | bin/symbolizer/cfg_analyzer.py:292-306 | absorbing a block drops it and changes the lines of none |
| GraphPayload.SimplificationComposes | bin/symbolizer/cfg_analyzer.py:353-404 | after any run a block has exactly the lines of the original blocks whose keys are among its addresses: its own, and blocks that went |
| GraphPayload.RunKeepsEnds | bin/symbolizer/cfg_analyzer.py:406-410 | over every run the head is the block that holds the original head, and the tails are exactly those that hold an original tail |
| GraphSearch.ExploredIsReachable | bin/symbolizer/cfg_analyzer.py:461-477 | the forward search with its shared visited set collects the reachable blocks, no more and no fewer, in any order of successors |
| GraphSearch.ForwardLabelInOriginal | bin/symbolizer/cfg_analyzer.py:445-477 | what a surviving instrumented block learns is which other instrumented survivors were reachable from it before simplification |
| GraphSearch.SearchedFromAllTails | bin/symbolizer/cfg_analyzer.py:412-443 | the backward label of an instrumented block: only uninstrumented blocks with an uninstrumented path to a tail inside the label; every such successor with one whole path; nonempty exactly if there is one |
| GraphSearch.AllTailsSearched | bin/symbolizer/cfg_analyzer.py:412-421 | after the searches from all tails every block's backward label is exact in that sense |
| CfgSimplifier.FunctionCFG.RemoveSelfLoops | bin/symbolizer/cfg_analyzer.py:263-268 | in place, removes every self loop and nothing else |
| CfgSimplifier.FunctionCFG.MergeNodes | bin/symbolizer/cfg_analyzer.py:369-410 | in place, with both directions: the new graph as a function of the old one; no key is missing on the way |
| CfgSimplifier.FunctionCFG.SkipNode | bin/symbolizer/cfg_analyzer.py:353-364 | in place: a block is popped and its edges, addresses and lines are handed on; no key is missing on the way |
| CfgSimplifier.FunctionCFG.FindSingleEntryNode | bin/symbolizer/cfg_analyzer.py:293-299 | returns a pair that rule one may merge, or proves there is none |
| CfgSimplifier.FunctionCFG.FindOneToOneNodes | bin/symbolizer/cfg_analyzer.py:309-315 | returns a pair that rule two may merge, or proves there is none |
| CfgSimplifier.FunctionCFG.FindUninstrumentedNode | bin/symbolizer/cfg_analyzer.py:334-346 | returns a block that rule three may bypass, or proves there is none |
| CfgSimplifier.FunctionCFG.DeleteSingleEntryNode | bin/symbolizer/cfg_analyzer.py:292-306 | fires rule one once, or leaves the graph alone because it applies nowhere |
| CfgSimplifier.FunctionCFG.DeleteOneToOneNodes | bin/symbolizer/cfg_analyzer.py:308-329 | fires rule two once, or leaves the graph alone because it applies nowhere |
| CfgSimplifier.FunctionCFG.DeleteUninstrumentedNodesNextsInstrumented | bin/symbolizer/cfg_analyzer.py:331-367 | fires rule three once, or leaves the graph alone because it applies nowhere |
| CfgSimplifier.FunctionCFG.Round | bin/symbolizer/cfg_analyzer.py:272-290 | one round of the three attempts: either the graph shrinks or it is a normal form |
| CfgSimplifier.FunctionCFG.SimplifyCfg | bin/symbolizer/cfg_analyzer.py:270-290 | terminates without a key error, in a well-formed normal form derived from the graph it got |
| CfgSimplifier.FunctionCFG.TraverseCfgHelperImpl | bin/symbolizer/cfg_analyzer.py:461-477 | a call explores what its block can reach outside the visited set and reports the instrumented part of it |
| CfgSimplifier.FunctionCFG.TraverseCfgHelper | bin/symbolizer/cfg_analyzer.py:450-459 | one instrumented block gets the other instrumented blocks it can reach |
| CfgSimplifier.FunctionCFG.TraverseCfg | bin/symbolizer/cfg_analyzer.py:445-448 | every block ends with exactly its forward label |
| CfgSimplifier.FunctionCFG.ReverseTraverseCfgHelperImpl | bin/symbolizer/cfg_analyzer.py:423-443 | a call of the backward search with a visited set shared by all branches: what is visited, and which labels grow by what |
| CfgSimplifier.FunctionCFG.ReverseTraverseCfg | bin/symbolizer/cfg_analyzer.py:412-421 | every block ends with an exact backward label |
| CfgSimplifier.FunctionCFG.CollectLines | bin/symbolizer/cfg_analyzer.py:542-549 | each block gets the lines of the blocks in its backward label, none of which is missing from the graph |
| Traces.QuietPathIsCollected | bin/symbolizer/cfg_analyzer.py:412-443 | wherever control can go from an instrumented block to a tail without meeting a traced one, the entry of the block has all lines of one whole way there |
| Traces.CollectedIsQuiet | bin/symbolizer/cfg_analyzer.py:542-549 | every line passed quietly is one of an uninstrumented block on such a way |
| CfgSimplifier.FunctionCFG.Analyse | bin/symbolizer/cfg_analyzer.py:509-549 | cleanup, simplification and both searches on one function; fails exactly if more than 1000 blocks remain |
| BlockBuilder.Scan | bin/symbolizer/cfg_analyzer.py:61-123 | the pass over the instructions records fall-throughs, starts after jumps, indices and jumps |
| BlockBuilder.FollowJumps | bin/symbolizer/cfg_analyzer.py:125-133 | after it, an instruction starts a block exactly if it is first, follows a jump or is the target of one, and knows its successors |
| BlockBuilder.Split | bin/symbolizer/cfg_analyzer.py:135-144 | the blocks are nonempty and concatenate to the instruction list |
| BlockBuilder.NextsAreBlocks | bin/symbolizer/cfg_analyzer.py:173-175 | every successor address of a block is the start of a block |
| BlockBuilder.CreateBasicBlock | bin/symbolizer/cfg_analyzer.py:178-200 | the node of one block: its addresses, successors and instrumentation |
| BlockBuilder.FillPrevs | bin/symbolizer/cfg_analyzer.py:173-175 | the predecessors become the converse of the successors; no lookup fails |
| BlockBuilder.BuildFunction | bin/symbolizer/cfg_analyzer.py:61-176 | from instructions to the graph: exactly the declarative graph of the listing |
| BlockBuilder.BuiltGraphIsSound | bin/symbolizer/cfg_analyzer.py:155-200 | that graph is linked and anchored, and a block is instrumented by its own key or not at all |
| BlockBuilder.StartsExactly | bin/symbolizer/cfg_analyzer.py:84-133 | blocks start at the first instruction, after every jump and at the targets of direct jumps, and nowhere else |
| BlockBuilder.BuiltBlockHolds | bin/symbolizer/cfg_analyzer.py:160-200 | a block has the addresses of its instructions; it is instrumented by its own key if it is the first or has a traced instruction, and a tail if its last one is a return |
| BlockBuilder.BuiltKeysAreStarts | bin/symbolizer/cfg_analyzer.py:160-171 | the keys are exactly the addresses where blocks start, and tails are among them |
| BlockBuilder.BuiltEdgesAre | bin/symbolizer/cfg_analyzer.py:76-133 | its successors: none after a return, else the next instruction unless the text contains `jmp`, and the target of a direct jump inside the function |
| BlockBuilder.BlocksAreFaithful | bin/symbolizer/cfg_analyzer.py:61-200 | paths between instructions, as control really goes, exist exactly when block-level paths do, if and only if control goes on inside every block and the recorded successors at the ends of blocks connect what is really connected |
| BlockBuilder.WellReadIsFaithful | bin/symbolizer/cfg_analyzer.py:76-123 | where the text tests read the last instruction of every block right, only a block with an instruction in it that does not go on can break this |
| BlockBuilder.ReturnInsideBlock | bin/symbolizer/cfg_analyzer.py:108-144 | three instructions with a return in the middle are one block, and the last one is not reached |
| BlockBuilder.CallOfSetjmp | bin/symbolizer/cfg_analyzer.py:76-81 | a call taken for a jump, whose block loses the successor that control goes to |
| AddressMap.AnalyseFunction | bin/symbolizer/cfg_analyzer.py:509-549 | per function, on its objects: what the map needs of it, with exact labels if it did not fail |
| AddressMap.EntriesReachAsOriginal | bin/symbolizer/cfg_analyzer.py:445-477 | the reachable set of an entry is about the original function |
| AddressMap.FallbackPhase | bin/symbolizer/cfg_analyzer.py:246-257 | fallback entries of all functions, and which addresses and names are to fall back |
| AddressMap.CreateData | bin/symbolizer/cfg_analyzer.py:479-552 | the map of all functions, simplified entries first and fallback entries on top |
| AddressMap.ContributionCovers | bin/symbolizer/cfg_analyzer.py:246-257 | fallback and simplified entries of a function have the initially traced addresses as keys, and the simplified lines include the fallback lines |
| AddressMap.DataHoldsAll | bin/symbolizer/cfg_analyzer.py:479-552 | without namesakes each function contributes its fallback entries if it failed and its simplified entries otherwise, unharmed by the others |
| AddressMap.CompleteIffNoNamesakes | bin/symbolizer/cfg_analyzer.py:487-496 | the keys are exactly the initially traced addresses if and only if no failed function shares its name with one that did not fail |
| AddressMap.NamesakeIsLost | bin/symbolizer/cfg_analyzer.py:487-496 | otherwise the head of the namesake is missing from the map |
| AddressMap.NamesakeExample | bin/symbolizer/cfg_analyzer.py:509-531 | a function with 1001 blocks that cannot be merged, and a small function of its name that is lost |
| AddressMap.ThousandBlocksPass | bin/symbolizer/cfg_analyzer.py:522-526 | a thousand blocks are not too many, a thousand and one are |
| AddressMap.Translate | bin/symbolizer/addr_line_mapper.py:31-50 | a line is reported exactly if some known address of the trace has it, or has it among its quiet lines, is no fallback, and the trace has nothing of its label |
| Traces.QuietPathIsReported | bin/symbolizer/addr_line_mapper.py:31-50 | a trace with an address of a block and nothing of its label reports all lines of a whole quiet way to a tail, from each successor that has one |
| AddressMap.SimplifiedReportsMore | bin/symbolizer/addr_line_mapper.py:31-50 | on any trace the simplified map reports every line the fallback map reports |
| Traces.LabelsAreExactIffKeysTraced | bin/symbolizer/addr_line_mapper.py:31-50 | on all plausible traces, a key of a label occurs exactly when an address traced in one of its blocks does, if and only if all keys of the label are traced |
| Traces.ExecutionsArePlausible | bin/symbolizer/cfg_analyzer.py:292-410 | if nothing jumps back to the head, the trace of every path from the head contains, with an address, the traced key of the block that owns it after simplification |
| Traces.OwnersAreOnTheWay | bin/symbolizer/cfg_analyzer.py:369-410 | every path from the head to a traced address leads through the block that ends up owning it |
| Traces.QuietLinesOfExecution | bin/symbolizer/addr_line_mapper.py:31-50 | over any execution, an entry whose label has traced keys reports its lines, and the quiet ones exactly if nothing was traced in a block it can reach |
| Traces.UntracedKeyExample | bin/symbolizer/cfg_analyzer.py:292-306 | a graph and an execution for which an untraced key makes the label miss |
| AddressMap.WorkersMerge | bin/symbolizer/cfg_analyzer.py:566-578 | with unambiguous names, strided shares of any number of workers merge to the map of a single worker |
| AddressMap.WorkersCompleteIffUnambiguous | bin/symbolizer/cfg_analyzer.py:566-578 | the keys of the merged map are exactly the initially traced addresses if and only if within each worker's share no failed function shares its name with one that did not fail |
| Listings.AddLines | bin/symbolizer/cfg_analyzer.py:230-244 | in place: every block gets the lines of its addresses, and nothing else changes |
| Listings.AnalyseListing | bin/symbolizer/cfg_analyzer.py:498-549 | from a listing to exact entries: construction, lines, simplification and searches on the objects meet each other's demands |
| Listings.EntriesReachAsCode | bin/symbolizer/cfg_analyzer.py:445-477 | the reachable set of an entry names exactly the surviving traced blocks whose start the instructions can reach from the start of its own block |
| Listings.MapFromListings | bin/symbolizer/cfg_analyzer.py:48-552 | from the regions of one worker to its map, whose keys and lines are those the listings ask for, exactly under unambiguous names |
| Listings.KeysAreTracedStarts | bin/symbolizer/cfg_analyzer.py:48-60 | the keys are exactly the first addresses, and the starts of blocks with a traced instruction, of the functions that have one and are none of the runtime's, if and only if no failed function has a namesake that did not fail |
| Listings.KeysHaveTheirLines | bin/symbolizer/cfg_analyzer.py:230-257 | under each such key the map has every line the symbolizer gives an instruction of the block that starts there |
| Listings.EntryLinesAre | bin/symbolizer/cfg_analyzer.py:353-404 | the lines of an entry are exactly those of the original blocks whose keys are among the addresses of its block |
| Intervals.Insert | testlang/src/hash.rs:289-298 | adding to a range set covers exactly the old integers and the new range, and stays canonical |
| Intervals.CanonicalIsUnique | testlang/src/hash.rs:289-319 | a set of integers has only one canonical list of ranges |
| HashMemo.TestLangHasher.Hash | testlang/src/hash.rs:49-67 | succeeds exactly on schemas whose references form no circle and all resolve and whose int fields hold integers; then every record has its plain recursive hash, whatever the order of records; an error names something truly wrong |
| HashReferences.EdgesAreReferences | testlang/src/hash.rs:100-189 | hashing one thing needs the hash of another exactly if the schema refers to it: a record to its fields, a field through its sizes, values, items and call arguments |
| HashReferences.CyclesAreOfReferences | testlang/src/hash.rs:76-85 | so the cycles and dangling references met are those of the schema |
| HashSensitivity.EqualFieldHashes | testlang/src/hash.rs:147-203 | with a hash function that confuses nothing, two fields have one hash if and only if all nine parts agree: kind class, sizes, normalised values, items, terminator bytes, format, endianness and call, down to the hashes of what they refer to |
| HashSensitivity.EqualRecordHashes | testlang/src/hash.rs:100-111 | and two records if and only if they are of one kind and their fields have the same hashes, for a struct in order |
| HashSensitivity.SameIntLists | testlang/src/hash.rs:286-321 | the lists of two int fields count as one if and only if their values with references agree in order and their constants say the same integers |
| HashMemo.TestLangHasher.HashRecord | testlang/src/hash.rs:69-113 | with the memo: a finished hash, a cycle, or the mix of the fields' hashes, sorted for a union |
| HashMemo.TestLangHasher.HashField | testlang/src/hash.rs:115-240 | with the memo: a finished hash, a cycle, or the mix of nine parts; the conflict and not-found branches are proved dead |
| HashMemo.TestLangHasher.HashPossibleValues | testlang/src/hash.rs:278-332 | values hashed in order, those of an int field after normalisation; fails exactly as justified |
| HashMemo.TestLangHasher.Normalise | testlang/src/hash.rs:286-321 | constants of an int field go to a range set that follows the other values; none if some value is no integer |
| HashMemo.TestLangHasher.HashRef | testlang/src/hash.rs:394-422 | a reference adds its kind to the hash of what it names, or the schema does not resolve |
| HashMemo.TestLangHasher.Collect | testlang/src/hash.rs:55-66 | no entry of the record memo is left open when the run ends |
| HashMemo.MeetingCloses | testlang/src/hash.rs:76-85 | meeting an entry under way closes a cycle of references |
| HashMemo.AllFinished | testlang/src/hash.rs:49-54 | the order in which hashes were finished proves the schema acyclic, resolved and with proper int fields |
| HashMemo.FinishKeepsGood | testlang/src/hash.rs:107-112 | finishing an entry keeps the memo equal to the plain hashes of everything finished |
| StructuralHash.SettledIsPlain | testlang/src/hash.rs:69-113 | any table of words that is consistent with its own mixing rule agrees with plain recursion |
| StructuralHash.RankedIsAcyclic | testlang/src/hash.rs:76-85 | an order in which everything comes after what it refers to excludes every cycle of references |
| StructuralHash.RangesDenote | testlang/src/hash.rs:288-300 | the range set of a list of values holds exactly the integers its constants denote |
| HashInvariance.SimulationKeepsHash | testlang/src/hash.rs:69-113 | if one schema has everything another has, under new names and with terms that are alike, hashes carry over |
| HashInvariance.RenamingKeepsHashes | testlang/src/hash.rs:100-113 | consistently renaming records and fields changes no hash, and not whether hashing succeeds |
| HashInvariance.RewritingKeepsHashes | testlang/src/hash.rs:105-107 | permuting union fields and rewriting the constants of int fields without changing the integers they denote changes no hash, and not whether hashing succeeds |
| HashInvariance.SameRanges | testlang/src/hash.rs:286-321 | equal integer sets normalise to one list of values |
| IntRanges.ValRangesCover | testlang/src/lib.rs:464-482 | the ranges of a constant or a reference, to an `int` field or a formatted text, are empty or contain its value under every consistent valuation |
| IntRanges.NumRangesCover | testlang/src/lib.rs:429-462 | every integer that a number or a range admits lies in its ranges, also where an end is unknown |
| IntRanges.GetPossibleIntRanges | testlang/src/lib.rs:404-427 | the loop over a field's values computes the union of their ranges |
| IntRanges.GetSizeRangeSet | testlang/src/lib.rs:376-402 | sizes are clamped to the integer type and lose their negative part |
| IntRanges.RangesCover | testlang/src/lib.rs:404-482 | every consistent value of any field lies in its computed ranges, unless they are empty, for all known dependencies, if the ranges of all fields that count for it speak for their lists |
| IntRanges.MissedByEntry | testlang/src/lib.rs:404-482 | without that condition on the field itself, a value outside the ranges comes from one of its references without ranges or from an entry that is no integer |
| MissedValues.MissesIffLeftOut | testlang/src/lib.rs:404-482 | where the lists of the fields it refers to have no such gaps and no other field depends on it: some consistent value is missed if and only if an entry brings a value that the integer entries leave out: a reference to no dependency and no field with values any, a text the one the format reads |
| MissedValues.SevenIsMissed | testlang/src/lib.rs:472-480 | the value list of a free reference and 5: the value 7 is possible and missed |
| MissedValues.TextIsMissed | testlang/src/lib.rs:413-424 | the value list of the text "1" and 5: the ranges are just 5 |
| MissedValues.PinnedIsNotMissed | testlang/src/lib.rs:472-480 | the list of a free reference and 5 misses nothing where two other fields pin the reference to 5 |
| MissedValues.LoneReferenceNeedsBound | testlang/src/lib.rs:472-480 | the case of a single entry: where a field's one value is a reference, every consistent value of it is covered if the reference has ranges, and none otherwise |
| IntRanges.NonNegativesStay | testlang/src/lib.rs:396-400 | removing the negative part keeps exactly the other integers |
| RangeMeaning.ValRangesHold | testlang/src/lib.rs:464-482 | a constant holds itself, a known dependency its value, a reference to a field what the field holds, anything else nothing |
| RangeMeaning.NumRangesHold | testlang/src/lib.rs:429-462 | a range holds exactly what lies between some integer of its start and some of its end, where an end without any is the limit of the type |
| RangeMeaning.PossibleRangesHold | testlang/src/lib.rs:404-427 | a field holds exactly what its integer entries hold |
| RangeMeaning.SizeRangesHold | testlang/src/lib.rs:376-402 | a size holds exactly the integers of its clamped value or range that are not negative |
| Layout.MinimumIsLowerBound | testlang/src/lib.rs:484-559 | for all known dependencies, all schemas whose value lists the ranges speak for and whose array lengths fit, and all conforming instances that agree with the dependencies: the minimum size is a lower bound if and only if no union with a positive minimum offers an array that may be empty |
| Layout.ValidMinimumIsLowerBound | testlang/src/lib.rs:484-559 | under the same premises, if unions consist of record fields, as validated, the minimum size is a lower bound |
| MinimumTight.MinimumIsReached | testlang/src/lib.rs:484-559 | where sizes are written out, nothing overflows and leaves accept any bytes, each record has a conforming instance of exactly its minimum size |
| MinimumTight.MinimumIsGreatest | testlang/src/lib.rs:484-559 | so the minimum is the greatest lower bound |
| Layout.RecordBound | testlang/src/lib.rs:484-508 | under the condition on unions no conforming instance is shorter than its record's minimum |
| Layout.ArrayLengthBound | testlang/src/lib.rs:534-549 | the first length found in the item record is at most any admitted length, if that record has no field of the name or the length is no larger there than in the array's own record |
| Layout.SizeBound | testlang/src/lib.rs:517-529 | for all known dependencies the first computed size is at most any admitted size |
| MinimumLimits.BorrowedLengthIsExact | testlang/src/lib.rs:534-549 | for a length that is a field of constants: the least length found in the item record is a bound for all admitted ones if and only if it is no larger than the least one of the field that is meant |
| MinimumLimits.BorrowedLengthFails | testlang/src/lib.rs:534-549 | a schema whose array length is mistaken for a field of the item record: the minimum is 6 bytes and an instance has 1 |
| MinimumLimits.MixedListFails | testlang/src/lib.rs:404-427 | a schema with a size field of the text "1" or the integer 5: the minimum is 6 bytes and an instance has 2 |
| MinimumLimits.EmptyAlternativeFails | testlang/src/lib.rs:495-506 | a union that offers an array of one-byte records: the minimum is 1 byte and an instance has none |
| TextNumbers.WrittenIsParsed | uniafl/src/input_gen/testlang/generators/mod.rs:1028-1085 | every integer written as a text of any format is read back |
| TextNumbers.FormatsRead | testlang/src/blob/parser.rs:68-75 | the radices: binary 10 is 2, octal 17 is 15, decimal 19 is 19, hexadecimal fF is 255 |
| Unroll.UnrollField | testlang/src/postprocess/unroll.rs:35-69 | an array of literal length becomes that many numbered record fields; every other field stays |
| Unroll.FixedArrayIsWrittenOut | testlang/src/postprocess/unroll.rs:35-69 | an array of n records of fixed length becomes n fields with one such record each, under different names |
| Unroll.OtherFieldsStay | testlang/src/postprocess/unroll.rs:35-44 | any other field stays as it is |
| Unroll.EleventhCopy | testlang/src/postprocess/unroll.rs:49-49 | how copies are named, by one instance |
| Unroll.NoFixedArrayIsLeft | testlang/src/postprocess/unroll.rs:18-32 | no such array is left in a struct |
| Unroll.UnrollKeepsLayouts | testlang/src/postprocess/unroll.rs:18-32 | unrolling changes the byte layouts of no record |
| Unroll.RollOut | testlang/src/postprocess/unroll.rs:18-32 | an instance of the schema as one of the unrolled schema, with the same bytes |
| Unroll.RollUp | testlang/src/postprocess/unroll.rs:18-32 | and back |
| Unroll.UnrollTwice | testlang/src/postprocess/unroll.rs:9-15 | unrolling twice is unrolling once |
| UnrollMinSize.UnrollKeepsMinSize | testlang/src/lib.rs:484-559 | for all known dependencies unrolling changes no record's minimum size, wrap-around included |
| UnrollMinSize.SumUnrolled | testlang/src/postprocess/unroll.rs:22-28 | sums over unrolled fields agree with sums over the fields, modulo the word size |
| AstNodes.FindByIdIsExact | testlang/src/ast.rs:57-68 | the pruned search from the left returns the node with the id, or nothing if there is none |
| AstNodes.FindByIdMutIsExact | testlang/src/ast.rs:70-83 | so does the pruned search from the right |
| AstNodes.SearchesAgree | testlang/src/ast.rs:57-83 | on a freshly numbered tree both return the one node with the id, and nothing exactly if the id is out of range |
| AstNodes.PreorderIsNumbered | testlang/src/ast.rs:91-91 | ids are contiguous and in preorder |
| AstMetadata.FillMetadata | testlang/src/ast.rs:85-202 | numbers a subtree and records it: the record describes all nodes so far, or one of them is faulty |
| AstMetadata.FillGroup | testlang/src/ast.rs:154-176 | a group's names are its own: those around it are as they were when it ends |
| AstMetadata.FillUnion | testlang/src/ast.rs:181-191 | the same for a union |
| AstMetadata.Metadata.ProcessNormalField | testlang/src/ast.rs:93-145 | a leaf declares its name, resolves its size and joins its lists, or is faulty |
| AstMetadata.NewAst | testlang/src/ast.rs:231-237 | succeeds exactly if no node has an unknown or unfit type or a size that names nothing in scope |
| AstMetadata.SizesAreLexical | testlang/src/ast.rs:99-120 | a leaf whose byte size, or else length, is a reference to a field name refers to the latest leaf of that name whose scope is still open, never to a later node; other leaves have no size reference |
| AstMetadata.SizesAreInverse | testlang/src/ast.rs:114-119 | size_of holds for each node exactly those whose size refers to it |
| AstMetadata.ValuesAreInverse | testlang/src/ast.rs:192-199 | value_of holds for each node exactly the reference nodes that name it |
| AstMetadata.NormalFieldsSplit | testlang/src/ast.rs:122-143 | normal fields are the leaves in strictly increasing order, split by the number of possible values into mutable, single-valued and choosable ones |
| AstMetadata.RecordsAreNamed | testlang/src/ast.rs:154-191 | arrays are recorded with the record of their items and unions with their own; nothing else has a record name |
| AstMetadata.FaultsMean | testlang/src/ast.rs:93-191 | what makes a node faulty, read off the node and the fields |
| AstMetadata.ScopeCloses | testlang/src/ast.rs:171-175 | what a closed scope declared is not seen any more |
| Scheduler.GroupParamsByTarget | blob-gen/multilang-llm-agent/eval/run_parallel.py:334-342 | each target with its parameters in order, and the targets once each |
| Scheduler.StartIsSafe | blob-gen/multilang-llm-agent/eval/run_parallel.py:381-399 | starting keeps a run safe, starts at most one task, and does start one if nothing is active and work is left |
| Scheduler.CompletionIsSafe | blob-gen/multilang-llm-agent/eval/run_parallel.py:345-369 | completing a task, with success or failure, keeps a run safe |
| Scheduler.CompletionKeepsTurn | blob-gen/multilang-llm-agent/eval/run_parallel.py:354-364 | whose turn it is changes with a completion only if a target has nothing left, and the others keep their order |
| Scheduler.WaitingIsStarted | blob-gen/multilang-llm-agent/eval/run_parallel.py:380-405 | if a slot is free whenever a round begins, as many rounds as there are targets start a waiting target, however the tasks of others fail |
| Scheduler.PendingFillsSlots | blob-gen/multilang-llm-agent/eval/run_parallel.py:380-405 | while nobody is ready, as many rounds as there are targets start all of them, or as many as may be active |
| Scheduler.FinishedIsComplete | blob-gen/multilang-llm-agent/eval/run_parallel.py:380-408 | at the end every parameter set has succeeded exactly once, each target's in order, and nothing is active |
| Scheduler.FailureIsRetried | blob-gen/multilang-llm-agent/eval/run_parallel.py:365-369 | a failure changes neither what is left nor what is done, and frees its target |
| Scheduler.DelayedRunsFinish | blob-gen/multilang-llm-agent/eval/run_parallel.py:372-408 | as many rounds as there are parameter sets left, plus answers of active tasks that are no success, finish the work |
| Scheduler.PromptRunsFinish | blob-gen/multilang-llm-agent/eval/run_parallel.py:372-408 | the case without such answers |
| Scheduler.DoneIsPart | blob-gen/multilang-llm-agent/eval/run_parallel.py:354-364 | what has completed is always part of what was asked for, and less than it while a group is left |
| Scheduler.ParallelRunner.ProcessCompletedTask | blob-gen/multilang-llm-agent/eval/run_parallel.py:345-369 | in place: the new lists and index as a function of the old ones |
| Scheduler.ParallelRunner.StartTask | blob-gen/multilang-llm-agent/eval/run_parallel.py:381-399 | in place: the index is in range and the group it names is not empty |
| Scheduler.ParallelRunner.PollTasks | blob-gen/multilang-llm-agent/eval/run_parallel.py:401-405 | polling from the last task to the first, while tasks are popped |
| Scheduler.ParallelRunner.RunParallelTasks | blob-gen/multilang-llm-agent/eval/run_parallel.py:372-408 | any run: all states safe, and complete when it ends |
| Coverage.JsonToCov | fuzzdb/src/db.rs:411-431 | for each source the sorted lines of all its functions, and the item of each function; what does not parse is passed over |
| Coverage.FuzzDB.LoadCov | fuzzdb/src/db.rs:153-174 | a seed is loaded once; a failed load changes nothing and may succeed later |
| Coverage.FuzzDB.LoadAll | fuzzdb/src/db.rs:153-174 | after any calls the accumulated lines of a source are the sorted sum over the first successful load of each seed |
| Coverage.EachSeedOnce | fuzzdb/src/db.rs:153-174 | a seed counts at most once, and exactly if some call could read its file |
| Coverage.FirstLoadCounts | fuzzdb/src/db.rs:153-174 | what counts for a seed is its file as the first successful call found it |
| Coverage.ItemIsLast | fuzzdb/src/db.rs:411-431 | the item kept for a function is the last of its name that parses |
| Coverage.HasSrcCovInRange | fuzzdb/src/db.rs:639-648 | for start <= end, true exactly if some function of the source has a line in the range |
| Coverage.FuzzDB.HasAccSrcCovInRange | fuzzdb/src/db.rs:399-408 | the same over everything loaded |
| Coverage.HasLineInRange | fuzzdb/src/db.rs:399-408 | on any bounds: true exactly if start is a line or a line lies between the bounds |
| Coverage.IndexAnswersAsScan | fuzzdb/src/db.rs:399-431 | an index of sorted sums answers range queries as a scan of the functions does |
| SourceFilter.CollectFunctionNodes | dictgen/src/utility/function_filter.py:148-182 | the ranges cover exactly the bytes inside functions other than the target |
| SourceFilter.CollectCommentNodes | dictgen/src/utility/function_filter.py:185-195 | the ranges cover exactly the bytes inside comments |
| SourceFilter.MergeRanges | dictgen/src/utility/function_filter.py:116-131 | sorted, pairwise separated, and the same bytes covered |
| SourceFilter.RemoveRanges | dictgen/src/utility/function_filter.py:134-145 | what is left are the uncovered bytes, in order |
| SourceFilter.ExtractFunctionAndGlobals | dictgen/src/utility/function_filter.py:240-251 | for any tree, exactly the bytes inside no other function and no comment are left, in order |

## Left out

- AddressMap.CreateData: works on the values that `AnalyseFunction` returns per function; the sharing of node objects between map entries is not modelled.
- CfgSimplifier.FunctionCFG.SimplifyCfg: the checks that run only under pytest are not modelled; their conditions are proved as part of well-formedness.
- HashMemo.TestLangHasher.HashField: branches that cannot be reached (a lost memo entry, a conflict) are `assert false` and have no error value.
- AstMetadata.FillMetadata: the tree is a value that is rebuilt with its ids, since Rust's ownership rules out aliasing; the byte size of nodes is not modelled.
- Layout.MinimumIsLowerBound: valuations inside an instance agree with the known dependencies, which the program takes to mean the same in every nested record; whether a length that does not fit makes the whole minimum too large depends on the other fields and is shown for an instance only.
- MinimumTight.MinimumIsReached: sizes that are references are left out, since the least values of several fields need not go together; so are bytes that a leaf refuses.
- HashSensitivity.EqualFieldHashes: collisions of the real hash function are left out.
- Unroll.UnrollKeepsLayouts: the validation that follows unrolling is not modelled.
- MissedValues.MissesIffLeftOut: fields on whose values other fields depend are left out, because others may then exclude the values that are missed; so are lists with the text of another field, whose integer is not modelled.
- Scheduler.ParallelRunner.RunParallelTasks: a run whose tasks keep failing or never become ready need not end; `DelayedRunsFinish` counts what they delay it by.
- Coverage.FuzzDB.LoadCov: calls are one after the other; the locking of the concurrent maps is not modelled.
- SourceFilter.MergeRanges: sorts a copy instead of the caller's list, which nobody reads again.
- Python's recursion limit, which the recursive searches could reach on very deep graphs.
- Objdump, the symbolizer, redis, pickling, process pools and their timeouts, JSON and file access, text decoding and the removal of blank lines.
- TextNumbers.Parsed: texts are the bytes of a whole field; the terminator that a field may have is not cut off, and for sizes, which have no sign, the parser reads less.
- Traces.LabelsAreExactIffKeysTraced: for a head that is jumped back to, plausible traces are taken as given.
- Encoders, generators and notes of fields, and the validator of schemas.
- Bug-candidate weights and diff matching in the coverage database.
- Array lengths, integers and sizes outside 64 bits, and texts for integers outside the signed ones; sums and products of sizes wrap around as in a release build.
