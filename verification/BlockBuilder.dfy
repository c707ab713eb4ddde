/** From a list of disassembled instructions to basic blocks.  What the tool's text tests say
    about an instruction is taken as given, and so is what the instruction really does. */
module BlockBuilder {
  import opened Options
  import opened FlowGraph
  import opened SetChoice
  import opened CfgSimplifier

  datatype Instruction = Instruction(
    addr: Addr,
    isJump: bool,           // a jump mnemonic stands before any "<": the next one starts a block
    isJmp: bool,            // "jmp" occurs anywhere: no fall-through is recorded
    isRet: bool,
    isTraced: bool,         // "__TMC_END__" occurs
    target: Option<Addr>,   // of a direct jump
    falls: bool,            // control may really go on to the next instruction
    jumps: bool)            // control may really go to the target

  /** The disassembler lists every address once. */
  ghost predicate Listing(code: seq<Instruction>) {
    code != [] && forall i, j | 0 <= i < j < |code| :: code[i].addr != code[j].addr
  }

  ghost predicate JumpsTo(code: seq<Instruction>, i: int, j: int) {
    0 <= i < |code| && 0 <= j < |code| && code[i].isJump && code[i].target == Some(code[j].addr)
  }

  ghost predicate Starts(code: seq<Instruction>, i: int) {
    0 <= i < |code| && (i == 0 || code[i - 1].isJump || exists j :: JumpsTo(code, j, i))
  }

  /** The first and the last instruction of the block that `i` lies in. */
  ghost function StartOf(code: seq<Instruction>, i: nat): (s: nat)
    requires i < |code|
    ensures s <= i && Starts(code, s) && forall k | s < k <= i :: !Starts(code, k)
  {
    if Starts(code, i) then i else StartOf(code, i - 1)
  }

  ghost function EndOf(code: seq<Instruction>, i: nat): (e: nat)
    requires i < |code|
    ensures i <= e < |code| && (e + 1 == |code| || Starts(code, e + 1))
    ensures forall k | i < k <= e :: !Starts(code, k)
    decreases |code| - i
  {
    if i + 1 == |code| || Starts(code, i + 1) then i else EndOf(code, i + 1)
  }

  /** The successors recorded for an instruction, whatever block it ends up in. */
  ghost function NextAddrs(code: seq<Instruction>, i: nat): set<Addr>
    requires i < |code|
  {
    FallThrough(code, i) + JumpTarget(code, i)
  }

  ghost function FallThrough(code: seq<Instruction>, i: nat): set<Addr>
    requires i < |code|
  {
    if i + 1 < |code| && !code[i].isJmp then {code[i + 1].addr} else {}
  }

  /** Direct jumps that leave the function have no recorded target. */
  ghost function JumpTarget(code: seq<Instruction>, i: nat): set<Addr>
    requires i < |code|
  {
    if exists j :: JumpsTo(code, i, j) then {code[i].target.value} else {}
  }

  // ---------- The graph that is built ----------

  ghost function BlockNexts(code: seq<Instruction>, s: nat): set<Addr>
    requires s < |code|
  {
    var e := EndOf(code, s);
    if code[e].isRet then {} else NextAddrs(code, e)
  }

  ghost predicate IsBlockKey(code: seq<Instruction>, a: Addr) {
    exists s :: Starts(code, s) && code[s].addr == a
  }

  ghost function KeyIndex(code: seq<Instruction>, a: Addr): (s: nat)
    requires IsBlockKey(code, a)
    ensures Starts(code, s) && code[s].addr == a
  {
    var s :| Starts(code, s) && code[s].addr == a; s
  }

  ghost function Keys(code: seq<Instruction>): set<Addr> {
    set i: nat | i < |code| && Starts(code, i) :: code[i].addr
  }

  ghost predicate Traced(code: seq<Instruction>, s: nat)
    requires s < |code|
  {
    s == 0 || exists k :: s <= k <= EndOf(code, s) && code[k].isTraced
  }

  ghost function BlockAddrs(code: seq<Instruction>, s: nat): set<Addr>
    requires s < |code|
  {
    set k: nat | s <= k <= EndOf(code, s) :: code[k].addr
  }

  ghost function PrevsAmong(code: seq<Instruction>, a: Addr, among: set<Addr>): set<Addr> {
    set c | c in among && IsBlockKey(code, c) && a in BlockNexts(code, KeyIndex(code, c))
  }

  ghost function BuiltBlock(code: seq<Instruction>, a: Addr): Block
    requires IsBlockKey(code, a)
  {
    var s := KeyIndex(code, a);
    Block(
      BlockAddrs(code, s),
      PrevsAmong(code, a, Keys(code)),
      BlockNexts(code, s),
      if Traced(code, s) then {a} else {},
      {})
  }

  ghost function BuiltGraph(code: seq<Instruction>): Graph
    requires code != []
  {
    Graph(
      code[0].addr,
      set a | a in Keys(code) && IsBlockKey(code, a) && code[EndOf(code, KeyIndex(code, a))].isRet,
      map a | a in Keys(code) && IsBlockKey(code, a) :: BuiltBlock(code, a))
  }

  lemma {:induction false} KeysAreBlockKeys(code: seq<Instruction>, a: Addr)
    ensures a in Keys(code) <==> IsBlockKey(code, a)
  {
  }

  lemma {:induction false} KeyIndexIs(code: seq<Instruction>, s: nat)
    requires Listing(code) && Starts(code, s)
    ensures IsBlockKey(code, code[s].addr) && KeyIndex(code, code[s].addr) == s
  {
  }

  /** Every successor of a block is the start of a block, so filling in the predecessors finds
      all of them. */
  lemma {:induction false} NextsAreBlocks(code: seq<Instruction>, s: nat, b: Addr)
    requires Listing(code) && s < |code| && b in BlockNexts(code, s)
    ensures IsBlockKey(code, b)
  {
    var e := EndOf(code, s);
    if e + 1 < |code| && b == code[e + 1].addr {
      assert Starts(code, e + 1);
    } else {
      var j :| JumpsTo(code, e, j);
      assert Starts(code, j) && code[j].addr == b;
    }
  }

  lemma {:induction false} BuiltEdge(code: seq<Instruction>, a: Addr, b: Addr)
    requires Listing(code)
    ensures Edge(BuiltGraph(code), a, b) <==> IsBlockKey(code, a) && b in BlockNexts(code, KeyIndex(code, a))
  {
    KeysAreBlockKeys(code, a);
  }

  lemma {:induction false} BuiltGraphLinked(code: seq<Instruction>)
    requires Listing(code)
    ensures Linked(BuiltGraph(code))
  {
    var g := BuiltGraph(code);
    forall a, b
      ensures Edge(g, a, b) <==> BackEdge(g, a, b)
    {
      BuiltEdge(code, a, b);
      KeysAreBlockKeys(code, a);
      KeysAreBlockKeys(code, b);
      if Edge(g, a, b) {
        NextsAreBlocks(code, KeyIndex(code, a), b);
      }
    }
  }

  ghost predicate OwnKeysOnly(g: Graph) {
    forall a | a in g.nodes :: g.nodes[a].instrumented <= {a}
  }

  lemma {:induction false} OwnKeysAreSingleOwners(g: Graph)
    requires OwnKeysOnly(g)
    ensures SingleOwner(g)
  {
  }

  lemma {:induction false} BuiltGraphAnchored(code: seq<Instruction>)
    requires Listing(code)
    ensures Anchored(BuiltGraph(code))
  {
    assert Starts(code, 0);
    KeyIndexIs(code, 0);
    KeysAreBlockKeys(code, code[0].addr);
  }

  /** The graph that is built meets everything the simplifier starts from. */
  lemma {:induction false} BuiltGraphIsSound(code: seq<Instruction>)
    requires Listing(code)
    ensures var g := BuiltGraph(code);
      Linked(g) && Anchored(g) && OwnKeysOnly(g) && SingleOwner(g)
  {
    BuiltGraphLinked(code);
    BuiltGraphAnchored(code);
    OwnKeysAreSingleOwners(BuiltGraph(code));
  }

  // ---------- What the blocks hold ----------

  /** Instruction `k` is in the block that starts at `s`. */
  ghost predicate InBlockAt(code: seq<Instruction>, s: int, k: int) {
    0 <= s <= k < |code| && Starts(code, s) && forall m | s < m <= k :: !Starts(code, m)
  }

  lemma {:induction false} BlockAtIs(code: seq<Instruction>, s: nat, k: nat)
    requires s < |code| && Starts(code, s)
    ensures InBlockAt(code, s, k) <==> s <= k <= EndOf(code, s)
  {
  }

  /** The block that starts at `s` has the addresses of its instructions; it is instrumented, under its
      own key, if it is the first one or has a traced instruction; and it is a tail if its last
      instruction is a return. */
  lemma {:induction false} BuiltBlockHolds(code: seq<Instruction>, s: nat)
    requires Listing(code) && Starts(code, s)
    ensures var g, a := BuiltGraph(code), code[s].addr;
      && g.head == code[0].addr && a in g.nodes && g.nodes[a].lines == {}
      && (forall x :: x in g.nodes[a].addrs <==> exists k :: InBlockAt(code, s, k) && x == code[k].addr)
      && (g.nodes[a].instrumented == if s == 0 || exists k :: InBlockAt(code, s, k) && code[k].isTraced then {a} else {})
      && (a in g.tail <==> exists e :: InBlockAt(code, s, e) && !InBlockAt(code, s, e + 1) && code[e].isRet)
  {
    BuiltBlockIs(code, s);
    BlockAtMeans(code, s);
    AddrsOfBlock(code, s);
  }

  lemma {:induction false} BuiltBlockIs(code: seq<Instruction>, s: nat)
    requires Listing(code) && Starts(code, s)
    ensures var g, a := BuiltGraph(code), code[s].addr;
      && g.head == code[0].addr && a in g.nodes && g.nodes[a].lines == {} && g.nodes[a].addrs == BlockAddrs(code, s)
      && g.nodes[a].instrumented == (if Traced(code, s) then {a} else {}) && (a in g.tail <==> code[EndOf(code, s)].isRet)
  {
    KeyIndexIs(code, s);
    KeysAreBlockKeys(code, code[s].addr);
  }

  lemma {:induction false} BlockAtMeans(code: seq<Instruction>, s: nat)
    requires Starts(code, s)
    ensures Traced(code, s) <==> s == 0 || exists k :: InBlockAt(code, s, k) && code[k].isTraced
    ensures code[EndOf(code, s)].isRet <==> exists e :: InBlockAt(code, s, e) && !InBlockAt(code, s, e + 1) && code[e].isRet
  {
    var e := EndOf(code, s);
    forall k: nat
      ensures InBlockAt(code, s, k) <==> s <= k <= e
    {
      BlockAtIs(code, s, k);
    }
    assert InBlockAt(code, s, e) && !InBlockAt(code, s, e + 1);
  }

  lemma {:induction false} AddrsOfBlock(code: seq<Instruction>, s: nat)
    requires Starts(code, s)
    ensures forall x :: x in BlockAddrs(code, s) <==> exists k :: InBlockAt(code, s, k) && x == code[k].addr
  {
    forall x
      ensures x in BlockAddrs(code, s) <==> exists k :: InBlockAt(code, s, k) && x == code[k].addr
    {
      if x in BlockAddrs(code, s) {
        var k: nat :| s <= k <= EndOf(code, s) && code[k].addr == x;
        BlockAtIs(code, s, k);
      }
      if k :| InBlockAt(code, s, k) && x == code[k].addr {
        BlockAtIs(code, s, k);
      }
    }
  }

  /** A block starts at the first instruction, after every jump, and where a direct jump of the function
      goes, and nowhere else. */
  lemma {:induction false} StartsExactly(code: seq<Instruction>, i: nat)
    requires i < |code|
    ensures Starts(code, i) <==>
            || i == 0 || code[i - 1].isJump
            || exists j :: 0 <= j < |code| && code[j].isJump && code[j].target == Some(code[i].addr)
  {
    if j :| 0 <= j < |code| && code[j].isJump && code[j].target == Some(code[i].addr) {
      assert JumpsTo(code, j, i);
    }
  }

  /** Its successors, as recorded: none after a return; otherwise the next instruction, unless the text
      of the last one contains `jmp`, and the target of a direct jump, if it lies in the function. */
  lemma {:induction false} BuiltEdgesAre(code: seq<Instruction>, s: nat, e: nat, b: Addr)
    requires Listing(code) && InBlockAt(code, s, e) && !InBlockAt(code, s, e + 1)
    ensures Edge(BuiltGraph(code), code[s].addr, b) <==>
            && !code[e].isRet
            && (|| (!code[e].isJmp && e + 1 < |code| && b == code[e + 1].addr)
                || (code[e].isJump && code[e].target == Some(b) && exists j :: 0 <= j < |code| && code[j].addr == b))
  {
    KeyIndexIs(code, s);
    BuiltEdge(code, code[s].addr, b);
    BlockAtIs(code, s, e);
    BlockAtIs(code, s, e + 1);
    assert EndOf(code, s) == e;
    NextAddrsAre(code, e, b);
  }

  lemma {:induction false} NextAddrsAre(code: seq<Instruction>, e: nat, b: Addr)
    requires e < |code|
    ensures b in NextAddrs(code, e) <==>
            || (!code[e].isJmp && e + 1 < |code| && b == code[e + 1].addr)
            || (code[e].isJump && code[e].target == Some(b) && exists j :: 0 <= j < |code| && code[j].addr == b)
  {
    if j :| 0 <= j < |code| && code[j].addr == b && code[e].isJump && code[e].target == Some(b) {
      assert JumpsTo(code, e, j);
    }
    if b in JumpTarget(code, e) {
      var j :| JumpsTo(code, e, j);
      assert code[j].addr == b;
    }
  }

  /** Only starts of blocks are keys and tails. */
  lemma {:induction false} BuiltKeysAreStarts(code: seq<Instruction>, a: Addr)
    requires Listing(code)
    ensures a in BuiltGraph(code).nodes <==> exists s :: Starts(code, s) && code[s].addr == a
    ensures a in BuiltGraph(code).tail ==> a in BuiltGraph(code).nodes
  {
    KeysAreBlockKeys(code, a);
  }

  lemma {:induction false} BuiltGraphOwnAddrs(code: seq<Instruction>)
    requires Listing(code)
    ensures forall b, c | b in BuiltGraph(code).nodes && c in BuiltGraph(code).nodes :: c in BuiltGraph(code).nodes[b].addrs <==> b == c
  {
    var g := BuiltGraph(code);
    forall b, c | b in g.nodes && c in g.nodes
      ensures c in g.nodes[b].addrs <==> b == c
    {
      KeysAreBlockKeys(code, b);
      KeysAreBlockKeys(code, c);
      BlockHasOneKey(code, KeyIndex(code, b), KeyIndex(code, c));
    }
  }

  lemma {:induction false} BlockHasOneKey(code: seq<Instruction>, s: nat, t: nat)
    requires Listing(code) && Starts(code, s) && Starts(code, t)
    ensures code[t].addr in BlockAddrs(code, s) <==> s == t
  {
    if code[t].addr in BlockAddrs(code, s) {
      var k: nat :| s <= k <= EndOf(code, s) && code[k].addr == code[t].addr;
      assert k == t;
    }
  }

  // ---------- Paths between instructions and paths between blocks ----------

  /** Control may really pass from `i` to `j`. */
  ghost predicate MachineStep(code: seq<Instruction>, i: int, j: int) {
    && 0 <= i < |code| && 0 <= j < |code|
    && ((j == i + 1 && code[i].falls) || (code[i].jumps && code[i].target == Some(code[j].addr)))
  }

  ghost predicate MachinePath(code: seq<Instruction>, p: seq<int>) {
    && p != [] && (forall k | 0 <= k < |p| :: 0 <= p[k] < |code|)
    && forall k | 0 <= k < |p| - 1 :: MachineStep(code, p[k], p[k + 1])
  }

  ghost predicate MachineReach(code: seq<Instruction>, i: int, j: int) {
    exists p :: MachinePath(code, p) && p[0] == i && p[|p| - 1] == j
  }

  ghost function KeyOf(code: seq<Instruction>, i: nat): Addr
    requires i < |code|
  {
    code[StartOf(code, i)].addr
  }

  /** `j` comes later in the block of `i`, or its block is reached from a successor of that block. */
  ghost predicate BlockReach(code: seq<Instruction>, i: nat, j: nat)
    requires i < |code| && j < |code|
  {
    || (StartOf(code, i) == StartOf(code, j) && i <= j)
    || exists c :: Edge(BuiltGraph(code), KeyOf(code, i), c) && Reach(BuiltGraph(code), c, KeyOf(code, j))
  }

  /** The text tests know every jump when they see one; they may see more. */
  predicate JumpsSeen(code: seq<Instruction>) {
    forall i | 0 <= i < |code| :: code[i].jumps ==> code[i].isJump
  }

  /** Inside a block, control goes on to the next instruction. */
  ghost predicate MiddlesFall(code: seq<Instruction>) {
    forall i | 0 <= i < |code| - 1 && !Starts(code, i + 1) :: code[i].falls
  }

  ghost predicate EndsBlock(code: seq<Instruction>, e: int) {
    0 <= e < |code| && (e + 1 == |code| || Starts(code, e + 1))
  }

  /** Where control really goes from the end of a block is connected in the graph, and a recorded
      successor is really reached. */
  ghost predicate EndConnected(code: seq<Instruction>, e: nat, j: nat)
    requires e < |code| && j < |code|
  {
    && (MachineStep(code, e, j) ==> BlockReach(code, e, j))
    && (code[j].addr in BlockNexts(code, e) ==> MachineReach(code, e, j))
  }

  ghost predicate EndsConnected(code: seq<Instruction>) {
    forall e, j | EndsBlock(code, e) && 0 <= j < |code| :: EndConnected(code, e, j)
  }

  lemma {:induction false} SameBlock(code: seq<Instruction>, i: nat, j: nat)
    requires i <= j < |code| && StartOf(code, i) == StartOf(code, j)
    ensures forall k | i < k <= j :: !Starts(code, k)
  {
  }

  lemma {:induction false} BlockEnd(code: seq<Instruction>, s: nat, i: nat)
    requires s <= i < |code| && forall k | s < k <= i :: !Starts(code, k)
    ensures EndOf(code, s) == EndOf(code, i)
    decreases i - s
  {
    if s < i {
      BlockEnd(code, s + 1, i);
    }
  }

  /** A step between instructions stays inside a block or leaves it from its end. */
  lemma {:induction false} StepStaysOrLeaves(code: seq<Instruction>, i: nat, j: nat)
    requires Listing(code) && JumpsSeen(code) && MachineStep(code, i, j)
    ensures (j == i + 1 && StartOf(code, i) == StartOf(code, j)) || EndsBlock(code, i)
  {
    if code[i].jumps && code[i].target == Some(code[j].addr) {
      assert i + 1 < |code| ==> Starts(code, i + 1);
    }
  }

  lemma {:induction false} BlockReachTransitive(code: seq<Instruction>, i: nat, j: nat, k: nat)
    requires Listing(code) && i < |code| && j < |code| && k < |code| && BlockReach(code, i, j) && BlockReach(code, j, k)
    ensures BlockReach(code, i, k)
  {
    var g := BuiltGraph(code);
    if StartOf(code, j) == StartOf(code, k) && j <= k {
    } else if StartOf(code, i) == StartOf(code, j) && i <= j {
    } else {
      var b :| Edge(g, KeyOf(code, i), b) && Reach(g, b, KeyOf(code, j));
      var c :| Edge(g, KeyOf(code, j), c) && Reach(g, c, KeyOf(code, k));
      BuiltGraphLinked(code);
      assert BackEdge(g, KeyOf(code, j), c);
      ReachStep(g, KeyOf(code, j), c);
      ReachTransitive(g, b, KeyOf(code, j), c);
      ReachTransitive(g, b, c, KeyOf(code, k));
    }
  }

  lemma {:induction false} MachineToBlocks(code: seq<Instruction>, p: seq<int>)
    requires Listing(code) && JumpsSeen(code) && EndsConnected(code) && MachinePath(code, p)
    ensures BlockReach(code, p[0], p[|p| - 1])
  {
    if |p| > 1 {
      var q := p[1..];
      forall k | 0 <= k < |q| - 1
        ensures MachineStep(code, q[k], q[k + 1])
      {
        assert MachineStep(code, p[k + 1], p[k + 1 + 1]);
      }
      MachineToBlocks(code, q);
      assert MachineStep(code, p[0], p[0 + 1]);
      StepStaysOrLeaves(code, p[0], p[1]);
      assert EndsBlock(code, p[0]) ==> EndConnected(code, p[0], p[1]);
      BlockReachTransitive(code, p[0], p[1], p[|p| - 1]);
    }
  }

  lemma {:induction false} MachineReachSelf(code: seq<Instruction>, i: int)
    requires 0 <= i < |code|
    ensures MachineReach(code, i, i)
  {
    assert MachinePath(code, [i]);
  }

  lemma {:induction false} MachineReachStep(code: seq<Instruction>, i: int, j: int, k: int)
    requires MachineStep(code, i, j) && MachineReach(code, j, k)
    ensures MachineReach(code, i, k)
  {
    var p :| MachinePath(code, p) && p[0] == j && p[|p| - 1] == k;
    var q := [i] + p;
    forall m | 0 <= m < |q| - 1
      ensures MachineStep(code, q[m], q[m + 1])
    {
      if m > 0 { assert MachineStep(code, p[m - 1], p[m - 1 + 1]); }
    }
    assert MachinePath(code, q);
  }

  lemma {:induction false} MachinePathTransitive(code: seq<Instruction>, p: seq<int>, k: int)
    requires MachinePath(code, p) && MachineReach(code, p[|p| - 1], k)
    ensures MachineReach(code, p[0], k)
  {
    if |p| > 1 {
      var q := p[1..];
      forall m | 0 <= m < |q| - 1
        ensures MachineStep(code, q[m], q[m + 1])
      {
        assert MachineStep(code, p[m + 1], p[m + 1 + 1]);
      }
      MachinePathTransitive(code, q, k);
      assert MachineStep(code, p[0], p[0 + 1]);
      MachineReachStep(code, p[0], p[1], k);
    }
  }

  lemma {:induction false} MachineReachTransitive(code: seq<Instruction>, i: int, j: int, k: int)
    requires MachineReach(code, i, j) && MachineReach(code, j, k)
    ensures MachineReach(code, i, k)
  {
    var p :| MachinePath(code, p) && p[0] == i && p[|p| - 1] == j;
    MachinePathTransitive(code, p, k);
  }

  lemma {:induction false} AlongBlock(code: seq<Instruction>, i: nat, j: nat, k: nat)
    requires MiddlesFall(code) && i <= j < |code| && k < |code|
    requires (forall m | i < m <= j :: !Starts(code, m)) && MachineReach(code, j, k)
    ensures MachineReach(code, i, k)
    decreases j - i
  {
    if i < j {
      AlongBlock(code, i + 1, j, k);
      assert !Starts(code, i + 1);
      MachineReachStep(code, i, i + 1, k);
    }
  }

  /** From anywhere in a block the first instruction of each successor block is reached. */
  lemma {:induction false} EdgeIsMachine(code: seq<Instruction>, i: nat, c: Addr, k: nat)
    requires Listing(code) && MiddlesFall(code) && EndsConnected(code) && i < |code| && k < |code|
    requires Edge(BuiltGraph(code), KeyOf(code, i), c)
    requires IsBlockKey(code, c) && MachineReach(code, KeyIndex(code, c), k)
    ensures MachineReach(code, i, k)
  {
    var s, e, t := StartOf(code, i), EndOf(code, i), KeyIndex(code, c);
    KeyIndexIs(code, s);
    BuiltEdge(code, KeyOf(code, i), c);
    BlockEnd(code, s, i);
    BlockEnd(code, i, e);
    assert code[t].addr in BlockNexts(code, e);
    assert EndsBlock(code, e) && EndConnected(code, e, t);
    MachineReachTransitive(code, e, t, k);
    AlongBlock(code, i, e, k);
  }

  lemma {:induction false} BlocksToMachine(code: seq<Instruction>, p: seq<Addr>, j: nat)
    requires Listing(code) && MiddlesFall(code) && EndsConnected(code) && j < |code|
    requires p != [] && PathFromTo(BuiltGraph(code), p, p[0], KeyOf(code, j)) && IsBlockKey(code, p[0])
    ensures MachineReach(code, KeyIndex(code, p[0]), j)
  {
    var s := KeyIndex(code, p[0]);
    if |p| == 1 {
      KeyIndexIs(code, StartOf(code, j));
      assert s == StartOf(code, j);
      MachineReachSelf(code, j);
      AlongBlock(code, s, j, j);
    } else {
      assert Edge(BuiltGraph(code), p[0], p[0 + 1]);
      BuiltEdge(code, p[0], p[1]);
      NextsAreBlocks(code, s, p[1]);
      PathDrop(BuiltGraph(code), p, 1);
      BlocksToMachine(code, p[1..], j);
      assert StartOf(code, s) == s;
      EdgeIsMachine(code, s, p[1], j);
    }
  }

  lemma {:induction false} BlockReachIsMachine(code: seq<Instruction>, i: nat, j: nat)
    requires Listing(code) && MiddlesFall(code) && EndsConnected(code) && i < |code| && j < |code| && BlockReach(code, i, j)
    ensures MachineReach(code, i, j)
  {
    var g := BuiltGraph(code);
    if StartOf(code, i) == StartOf(code, j) && i <= j {
      SameBlock(code, i, j);
      MachineReachSelf(code, j);
      AlongBlock(code, i, j, j);
    } else {
      var c :| Edge(g, KeyOf(code, i), c) && Reach(g, c, KeyOf(code, j));
      var p :| PathFromTo(g, p, c, KeyOf(code, j));
      KeyIndexIs(code, StartOf(code, i));
      BuiltEdge(code, KeyOf(code, i), c);
      NextsAreBlocks(code, StartOf(code, i), c);
      BlocksToMachine(code, p, j);
      EdgeIsMachine(code, i, c, j);
    }
  }

  /** Blocks and instructions have the same paths. */
  ghost predicate SamePaths(code: seq<Instruction>) {
    forall i, j | 0 <= i < |code| && 0 <= j < |code| :: MachineReach(code, i, j) <==> BlockReach(code, i, j)
  }

  lemma {:induction false} SomeStepLeadsTo(code: seq<Instruction>, i: int, j: int)
    requires MachineReach(code, i, j) && i != j
    ensures exists k :: MachineStep(code, k, j)
  {
    var p :| MachinePath(code, p) && p[0] == i && p[|p| - 1] == j;
    assert MachineStep(code, p[|p| - 2], p[|p| - 2 + 1]);
  }

  /** Block-level paths are instruction-level paths exactly when control goes on inside every block,
      and at the ends of blocks the tests have lost and invented no connection. */
  lemma {:induction false} BlocksAreFaithful(code: seq<Instruction>)
    requires Listing(code) && JumpsSeen(code)
    ensures SamePaths(code) <==> MiddlesFall(code) && EndsConnected(code)
  {
    if MiddlesFall(code) && EndsConnected(code) {
      forall i, j | 0 <= i < |code| && 0 <= j < |code|
        ensures MachineReach(code, i, j) <==> BlockReach(code, i, j)
      {
        if MachineReach(code, i, j) {
          var p :| MachinePath(code, p) && p[0] == i && p[|p| - 1] == j;
          MachineToBlocks(code, p);
        }
        if BlockReach(code, i, j) {
          BlockReachIsMachine(code, i, j);
        }
      }
    }
    if SamePaths(code) {
      forall i | 0 <= i < |code| - 1 && !Starts(code, i + 1)
        ensures code[i].falls
      {
        assert BlockReach(code, i, i + 1);
        FallsInto(code, i);
      }
      forall e, j | EndsBlock(code, e) && 0 <= j < |code|
        ensures EndConnected(code, e, j)
      {
        EndIsConnected(code, e, j);
      }
    }
  }

  /** What starts no block is only reached from the instruction before it. */
  lemma {:induction false} FallsInto(code: seq<Instruction>, i: nat)
    requires JumpsSeen(code) && i + 1 < |code| && !Starts(code, i + 1) && MachineReach(code, i, i + 1)
    ensures code[i].falls
  {
    SomeStepLeadsTo(code, i, i + 1);
    var k :| MachineStep(code, k, i + 1);
    assert !JumpsTo(code, k, i + 1);
  }

  lemma {:induction false} EndIsConnected(code: seq<Instruction>, e: nat, j: nat)
    requires Listing(code) && SamePaths(code) && EndsBlock(code, e) && j < |code|
    ensures EndConnected(code, e, j)
  {
    if MachineStep(code, e, j) {
      MachineReachSelf(code, j);
      MachineReachStep(code, e, j, j);
    }
    if code[j].addr in BlockNexts(code, e) { EndLeads(code, e, j); }
  }

  /** At the ends of blocks the tests read every instruction right. */
  ghost predicate EndsRead(code: seq<Instruction>) {
    forall e, j | EndsBlock(code, e) && 0 <= j < |code| :: MachineStep(code, e, j) <==> code[j].addr in BlockNexts(code, e)
  }

  /** If so, all that can go wrong is a block with an instruction in it that does not go on. */
  lemma {:induction false} WellReadIsFaithful(code: seq<Instruction>)
    requires Listing(code) && JumpsSeen(code) && EndsRead(code)
    ensures SamePaths(code) <==> MiddlesFall(code)
  {
    forall e, j | EndsBlock(code, e) && 0 <= j < |code|
      ensures EndConnected(code, e, j)
    {
      EndReadIsConnected(code, e, j);
    }
    BlocksAreFaithful(code);
  }

  lemma {:induction false} EndReadIsConnected(code: seq<Instruction>, e: nat, j: nat)
    requires Listing(code) && EndsBlock(code, e) && j < |code|
    requires MachineStep(code, e, j) <==> code[j].addr in BlockNexts(code, e)
    ensures EndConnected(code, e, j)
  {
    if MachineStep(code, e, j) {
      MachineReachSelf(code, j);
      MachineReachStep(code, e, j, j);
      EndLeads(code, e, j);
    }
  }

  lemma {:induction false} EndLeads(code: seq<Instruction>, e: nat, j: nat)
    requires Listing(code) && EndsBlock(code, e) && j < |code| && code[j].addr in BlockNexts(code, e)
    ensures BlockReach(code, e, j)
  {
    var g, s := BuiltGraph(code), StartOf(code, e);
    KeyIndexIs(code, s);
    BlockEnd(code, s, e);
    BuiltEdge(code, KeyOf(code, e), code[j].addr);
    NextsAreBlocks(code, e, code[j].addr);
    assert KeyIndex(code, code[j].addr) == j && StartOf(code, j) == j;
    KeysAreBlockKeys(code, code[j].addr);
    ReachSelf(g, code[j].addr);
  }

  /* An instance: a return, and code after it that nothing jumps to */

  function Plain(addr: int): Instruction {
    Instruction(Addr(addr), false, false, false, false, None, true, false)
  }

  function Return(addr: int): Instruction {
    Plain(addr).(isRet := true, falls := false)
  }

  const RETURN_INSIDE: seq<Instruction> := [Plain(0), Return(1), Plain(2)]

  /** The three instructions are one block, although the last one is never reached. */
  lemma {:induction false} ReturnInsideBlock()
    ensures Listing(RETURN_INSIDE) && JumpsSeen(RETURN_INSIDE) && !MiddlesFall(RETURN_INSIDE)
    ensures BlockReach(RETURN_INSIDE, 0, 2) && !MachineReach(RETURN_INSIDE, 0, 2)
  {
    var code := RETURN_INSIDE;
    assert !Starts(code, 1) && !Starts(code, 2);
    assert StartOf(code, 2) == 0;
    if MachineReach(code, 0, 2) { SomeStepLeadsTo(code, 0, 2); }
  }

  /* Another one: a call of `_setjmp` before a loop */

  const CALL_SETJMP: seq<Instruction> :=
    [Plain(0).(isJmp := true), Plain(1), Plain(2).(isJump := true, isJmp := true, falls := false, jumps := true, target := Some(Addr(1)))]

  /** The call is taken for a jump, so its block has no successor, although control goes on. */
  lemma {:induction false} CallOfSetjmp()
    ensures Listing(CALL_SETJMP) && JumpsSeen(CALL_SETJMP) && MiddlesFall(CALL_SETJMP) && !EndsConnected(CALL_SETJMP)
    ensures MachineReach(CALL_SETJMP, 0, 1) && !BlockReach(CALL_SETJMP, 0, 1)
  {
    var code := CALL_SETJMP;
    assert JumpsTo(code, 2, 1) && Starts(code, 1);
    assert EndsBlock(code, 0) && MachineStep(code, 0, 1);
    MachineReachSelf(code, 1);
    MachineReachStep(code, 0, 1, 1);
    assert BlockNexts(code, 0) == {};
    KeyIndexIs(code, 0);
    forall c
      ensures !Edge(BuiltGraph(code), KeyOf(code, 0), c)
    {
      BuiltEdge(code, KeyOf(code, 0), c);
    }
    assert !EndConnected(code, 0, 1);
  }

  // ---------- The construction itself ----------

  datatype Datum = Datum(addr: Addr, nextAddr: set<Addr>, isRet: bool, isTraced: bool, nodeStart: bool)

  ghost function DatumAt(code: seq<Instruction>, i: nat): Datum
    requires i < |code|
  {
    Datum(code[i].addr, NextAddrs(code, i), code[i].isRet, code[i].isTraced, Starts(code, i))
  }

  /** After the first pass: a block starts at the head and after every jump. */
  ghost function Scanned(code: seq<Instruction>, i: nat): Datum
    requires i < |code|
  {
    Datum(code[i].addr, FallThrough(code, i), code[i].isRet, code[i].isTraced, i == 0 || code[i - 1].isJump)
  }

  ghost predicate Indexed(code: seq<Instruction>, n: nat, addrToIndex: map<Addr, nat>)
    requires n <= |code|
  {
    && (forall i | 0 <= i < n :: code[i].addr in addrToIndex)
    && forall a | a in addrToIndex :: addrToIndex[a] < n && code[addrToIndex[a]].addr == a
  }

  ghost predicate JumpsUpTo(code: seq<Instruction>, n: nat, jumps: seq<nat>)
    requires n <= |code|
  {
    && (forall k | 0 <= k < |jumps| :: jumps[k] < n && code[jumps[k]].isJump)
    && forall i | 0 <= i < n && code[i].isJump :: i in jumps
  }

  /** The data after `n` instructions: the last one does not know its successor yet. */
  ghost predicate ScannedSoFar(code: seq<Instruction>, n: nat, data: seq<Datum>)
    requires n <= |code|
  {
    && |data| == n
    && (forall i | 0 <= i < n - 1 :: data[i] == Scanned(code, i))
    && (n > 0 ==> data[n - 1] == Scanned(code, n - 1).(nextAddr := {}))
  }

  function WithNext(data: seq<Datum>, falls: bool, addr: Addr): seq<Datum>
    requires data != []
  {
    var last := |data| - 1;
    if falls then data[last := data[last].(nextAddr := data[last].nextAddr + {addr})] else data
  }

  lemma {:induction false} ScanOneMore(code: seq<Instruction>, n: nat, data: seq<Datum>)
    requires n < |code| && ScannedSoFar(code, n, data)
    ensures var linked := if n == 0 then data else WithNext(data, !code[n - 1].isJmp, code[n].addr);
            ScannedSoFar(code, n + 1, linked + [Datum(code[n].addr, {}, code[n].isRet, code[n].isTraced, n == 0 || code[n - 1].isJump)])
  {
    if n > 0 {
      assert FallThrough(code, n - 1) == if code[n - 1].isJmp then {} else {code[n].addr};
    }
  }

  lemma {:induction false} ScanEnds(code: seq<Instruction>, data: seq<Datum>)
    requires Listing(code) && ScannedSoFar(code, |code|, data)
    ensures forall i | 0 <= i < |code| :: data[i] == Scanned(code, i)
  {
    assert FallThrough(code, |code| - 1) == {};
  }

  lemma {:induction false} IndexOneMore(code: seq<Instruction>, n: nat, addrToIndex: map<Addr, nat>)
    requires n < |code| && Indexed(code, n, addrToIndex)
    ensures Indexed(code, n + 1, addrToIndex[code[n].addr := n])
  {
  }

  lemma {:induction false} JumpsOneMore(code: seq<Instruction>, n: nat, jumps: seq<nat>)
    requires n < |code| && JumpsUpTo(code, n, jumps)
    ensures JumpsUpTo(code, n + 1, if code[n].isJump then jumps + [n] else jumps)
  {
    var more := jumps + [n];
    assert more[|jumps|] == n;
    forall i | 0 <= i < n && code[i].isJump
      ensures i in more
    {
      assert i in jumps;
    }
  }

  /** Records one instruction, and gives the one before it its fall-through. */
  method ScanLine(code: seq<Instruction>, index: nat, data: seq<Datum>, addrToIndex: map<Addr, nat>, jumps: seq<nat>, nodeStart: bool)
    returns (data': seq<Datum>, addrToIndex': map<Addr, nat>, jumps': seq<nat>, nodeStart': bool)
    requires index < |code| && (nodeStart <==> index == 0 || code[index - 1].isJump)
    requires ScannedSoFar(code, index, data) && Indexed(code, index, addrToIndex) && JumpsUpTo(code, index, jumps)
    ensures nodeStart' == code[index].isJump
    ensures ScannedSoFar(code, index + 1, data') && Indexed(code, index + 1, addrToIndex') && JumpsUpTo(code, index + 1, jumps')
  {
    var instruction := code[index];
    ScanOneMore(code, index, data);
    IndexOneMore(code, index, addrToIndex);
    JumpsOneMore(code, index, jumps);
    data' := if index > 0 then WithNext(data, !code[index - 1].isJmp, instruction.addr) else data;
    data' := data' + [Datum(instruction.addr, {}, instruction.isRet, instruction.isTraced, nodeStart)];
    addrToIndex' := addrToIndex[instruction.addr := index];
    nodeStart' := instruction.isJump;
    jumps' := if nodeStart' then jumps + [index] else jumps;
  }

  /** One pass over the instructions, which records fall-throughs, the starts after jumps, the
      index of every address, and the jumps. */
  method Scan(code: seq<Instruction>) returns (data: seq<Datum>, addrToIndex: map<Addr, nat>, jumps: seq<nat>)
    requires Listing(code)
    ensures |data| == |code| && forall i | 0 <= i < |code| :: data[i] == Scanned(code, i)
    ensures Indexed(code, |code|, addrToIndex) && JumpsUpTo(code, |code|, jumps)
  {
    data, addrToIndex, jumps := [], map[], [];
    var nodeStart := true;
    for index := 0 to |code|
      invariant nodeStart <==> index == 0 || code[index - 1].isJump
      invariant ScannedSoFar(code, index, data)
      invariant Indexed(code, index, addrToIndex) && JumpsUpTo(code, index, jumps)
    {
      data, addrToIndex, jumps, nodeStart := ScanLine(code, index, data, addrToIndex, jumps, nodeStart);
    }
    ScanEnds(code, data);
  }

  /** The scanned data once the given jumps have been followed. */
  ghost predicate Followed(code: seq<Instruction>, jumps: seq<nat>, data: seq<Datum>) {
    && |data| == |code|
    && forall i {:trigger data[i]} | 0 <= i < |code| ::
      && data[i] == Scanned(code, i).(nodeStart := data[i].nodeStart, nextAddr := data[i].nextAddr)
      && (data[i].nodeStart <==> i == 0 || code[i - 1].isJump || exists j :: j in jumps && JumpsTo(code, j, i))
      && data[i].nextAddr == FallThrough(code, i) + if i in jumps then JumpTarget(code, i) else {}
  }

  lemma {:induction false} FollowedNowhere(code: seq<Instruction>, done: seq<nat>, jump: nat, data: seq<Datum>)
    requires Followed(code, done, data) && jump < |code| && JumpTarget(code, jump) == {}
    requires forall j :: !JumpsTo(code, jump, j)
    ensures Followed(code, done + [jump], data)
  {
  }

  lemma {:induction false} FollowedTo(code: seq<Instruction>, done: seq<nat>, jump: nat, to: nat, data: seq<Datum>, data': seq<Datum>)
    requires Listing(code) && Followed(code, done, data) && jump < |code| && to < |code| && JumpsTo(code, jump, to)
    requires |data'| == |data|
    requires forall i | 0 <= i < |data| :: data'[i] ==
                                           data[i].(nodeStart := data[i].nodeStart || i == to,
                                                    nextAddr := data[i].nextAddr + if i == jump then {code[to].addr} else {})
    ensures Followed(code, done + [jump], data')
  {
    assert forall j | JumpsTo(code, jump, j) :: j == to;
    assert JumpTarget(code, jump) == {code[to].addr};
    var more := done + [jump];
    assert forall i :: i in more <==> i in done || i == jump;
    forall i | 0 <= i < |code|
      ensures data'[i].nodeStart <==> i == 0 || code[i - 1].isJump || exists j :: j in more && JumpsTo(code, j, i)
    {
      if i == to { assert jump in more; }
    }
  }

  lemma {:induction false} FollowedOne(code: seq<Instruction>, done: seq<nat>, jump: nat, to: nat, data: seq<Datum>)
    requires Listing(code) && Followed(code, done, data) && jump < |code| && to < |code| && JumpsTo(code, jump, to)
    ensures |data| == |code|
    ensures var started := data[to := data[to].(nodeStart := true)];
            Followed(code, done + [jump], started[jump := started[jump].(nextAddr := started[jump].nextAddr + {code[to].addr})])
  {
    var started := data[to := data[to].(nodeStart := true)];
    FollowedTo(code, done, jump, to, data, started[jump := started[jump].(nextAddr := started[jump].nextAddr + {code[to].addr})]);
  }

  /** The target of every direct jump inside the function starts a node. */
  method FollowJumps(code: seq<Instruction>, data0: seq<Datum>, addrToIndex: map<Addr, nat>, jumps: seq<nat>)
    returns (data: seq<Datum>)
    requires Listing(code) && |data0| == |code| && forall i | 0 <= i < |code| :: data0[i] == Scanned(code, i)
    requires Indexed(code, |code|, addrToIndex) && JumpsUpTo(code, |code|, jumps)
    ensures |data| == |code| && forall i | 0 <= i < |code| :: data[i] == DatumAt(code, i)
  {
    data := data0;
    for k := 0 to |jumps|
      invariant Followed(code, jumps[..k], data)
    {
      var jump := jumps[k];
      assert jumps[..k + 1] == jumps[..k] + [jump];
      if code[jump].target == None || code[jump].target.value !in addrToIndex {
        FollowedNowhere(code, jumps[..k], jump, data);
        continue;
      }
      var addr := code[jump].target.value;
      var to := addrToIndex[addr];
      FollowedOne(code, jumps[..k], jump, to, data);
      data := data[to := data[to].(nodeStart := true)];
      data := data[jump := data[jump].(nextAddr := data[jump].nextAddr + {addr})];
    }
    assert jumps[..|jumps|] == jumps;
    AllFollowed(code, jumps, data);
  }

  lemma {:induction false} AllFollowed(code: seq<Instruction>, jumps: seq<nat>, data: seq<Datum>)
    requires Followed(code, jumps, data) && JumpsUpTo(code, |code|, jumps)
    ensures forall i | 0 <= i < |code| :: data[i] == DatumAt(code, i)
  {
    forall i | 0 <= i < |code|
      ensures data[i] == DatumAt(code, i)
    {
      assert forall j | JumpsTo(code, j, i) :: j in jumps;
      assert i !in jumps ==> JumpTarget(code, i) == {};
    }
  }

  // ---------- Splitting into blocks ----------

  ghost function Data(code: seq<Instruction>): seq<Datum> {
    seq(|code|, i requires 0 <= i < |code| => DatumAt(code, i))
  }

  /** The first `|blocks|` blocks: block `k` starts at `starts[k]`, and they follow each other. */
  ghost predicate Chopped(code: seq<Instruction>, starts: seq<nat>, blocks: seq<seq<Datum>>, end: nat) {
    && |starts| == |blocks| && end <= |code| && (forall k {:trigger starts[k]} | 0 <= k < |starts| :: starts[k] < |code|)
    && (forall k {:trigger IsChop(code, starts[k], blocks[k])} | 0 <= k < |starts| :: IsChop(code, starts[k], blocks[k]))
    && (forall k {:trigger Follows(code, starts, k)} | 0 < k < |starts| :: Follows(code, starts, k))
    && (if starts == [] then end == 0 else starts[0] == 0 && end == EndOf(code, starts[|starts| - 1]) + 1)
  }

  ghost predicate Follows(code: seq<Instruction>, starts: seq<nat>, k: nat)
    requires 0 < k < |starts| && starts[k - 1] < |code|
  {
    starts[k] == EndOf(code, starts[k - 1]) + 1
  }

  ghost predicate IsChop(code: seq<Instruction>, s: nat, block: seq<Datum>) {
    && s < |code| && Starts(code, s) && block == Data(code)[s..EndOf(code, s) + 1]
  }

  function Concat(blocks: seq<seq<Datum>>): seq<Datum> {
    if blocks == [] then [] else Concat(blocks[..|blocks| - 1]) + blocks[|blocks| - 1]
  }

  lemma {:induction false} ChopOneMore(code: seq<Instruction>, starts: seq<nat>, blocks: seq<seq<Datum>>, s: nat, block: seq<Datum>)
    requires Chopped(code, starts, blocks, s) && IsChop(code, s, block)
    ensures Chopped(code, starts + [s], blocks + [block], EndOf(code, s) + 1)
  {
    var starts', blocks' := starts + [s], blocks + [block];
    forall k | 0 <= k < |starts'|
      ensures IsChop(code, starts'[k], blocks'[k])
    {
      if k < |starts| { assert IsChop(code, starts[k], blocks[k]); }
    }
    forall k | 0 < k < |starts'|
      ensures Follows(code, starts', k)
    {
      if k < |starts| { assert Follows(code, starts, k); }
    }
  }

  lemma {:induction false} ChopOneLess(code: seq<Instruction>, starts: seq<nat>, blocks: seq<seq<Datum>>, end: nat)
    requires Chopped(code, starts, blocks, end) && starts != []
    ensures var n := |starts| - 1;
      Chopped(code, starts[..n], blocks[..n], starts[n]) && IsChop(code, starts[n], blocks[n])
  {
    var n := |starts| - 1;
    assert IsChop(code, starts[n], blocks[n]);
    forall k | 0 <= k < n
      ensures IsChop(code, starts[..n][k], blocks[..n][k])
    {
      assert IsChop(code, starts[k], blocks[k]);
    }
    forall k | 0 < k < n
      ensures Follows(code, starts[..n], k)
    {
      assert Follows(code, starts, k);
    }
    if n > 0 {
      assert Follows(code, starts, n);
    }
  }

  lemma {:induction false} SlicesJoin<T>(a: seq<T>, i: nat, j: nat)
    requires i <= j <= |a|
    ensures a[..i] + a[i..j] == a[..j]
  {
  }

  /** The blocks put end to end are the instruction list. */
  lemma {:induction false} ChoppedConcat(code: seq<Instruction>, starts: seq<nat>, blocks: seq<seq<Datum>>, end: nat)
    requires Chopped(code, starts, blocks, end)
    ensures Concat(blocks) == Data(code)[..end]
  {
    if blocks != [] {
      var n := |blocks| - 1;
      ChopOneLess(code, starts, blocks, end);
      ChoppedConcat(code, starts[..n], blocks[..n], starts[n]);
      SlicesJoin(Data(code), starts[n], end);
    }
  }

  lemma {:induction false} ChoppedNonempty(code: seq<Instruction>, starts: seq<nat>, blocks: seq<seq<Datum>>, end: nat)
    requires Chopped(code, starts, blocks, end)
    ensures forall k | 0 <= k < |blocks| :: blocks[k] != []
  {
    forall k | 0 <= k < |blocks|
      ensures blocks[k] != []
    {
      assert IsChop(code, starts[k], blocks[k]);
    }
  }

  lemma {:induction false} ChopOf(code: seq<Instruction>, starts: seq<nat>, blocks: seq<seq<Datum>>, end: nat, s: nat)
    requires Chopped(code, starts, blocks, end) && s < end && Starts(code, s)
    ensures s in starts
  {
    if starts != [] {
      var n := |starts| - 1;
      ChopOneLess(code, starts, blocks, end);
      if s < starts[n] {
        ChopOf(code, starts[..n], blocks[..n], starts[n], s);
      }
    }
  }

  /** Everything from `s` up to, but without, `i` lies in one block that starts at `s`. */
  ghost predicate InBlock(code: seq<Instruction>, s: nat, i: nat) {
    s < i <= |code| && Starts(code, s) && forall m | s < m < i :: !Starts(code, m)
  }

  lemma {:induction false} CloseBlock(code: seq<Instruction>, starts: seq<nat>, blocks: seq<seq<Datum>>, s: nat, i: nat)
    requires Chopped(code, starts, blocks, s) && InBlock(code, s, i) && (i == |code| || Starts(code, i))
    ensures Chopped(code, starts + [s], blocks + [Data(code)[s..i]], i)
  {
    BlockEnd(code, s, i - 1);
    ChopOneMore(code, starts, blocks, s, Data(code)[s..i]);
  }

  lemma {:induction false} OpenBlock(code: seq<Instruction>, i: nat)
    requires i < |code| && Starts(code, i)
    ensures InBlock(code, i, i + 1) && Data(code)[i..i + 1] == [DatumAt(code, i)]
  {
  }

  lemma {:induction false} GrowBlock(code: seq<Instruction>, s: nat, i: nat)
    requires i < |code| && InBlock(code, s, i) && !Starts(code, i)
    ensures InBlock(code, s, i + 1) && Data(code)[s..i + 1] == Data(code)[s..i] + [DatumAt(code, i)]
  {
  }

  /** Cuts the data at every start. */
  method Split(code: seq<Instruction>, data: seq<Datum>) returns (functionData: seq<seq<Datum>>, ghost starts: seq<nat>)
    requires Listing(code) && data == Data(code)
    ensures Chopped(code, starts, functionData, |code|)
    ensures Concat(functionData) == data && forall k | 0 <= k < |functionData| :: functionData[k] != []
  {
    functionData, starts := [], [];
    var basicBlockData: seq<Datum> := [];
    ghost var s: nat := 0;
    assert data[0].nodeStart;
    for i := 0 to |data|
      invariant s <= i && basicBlockData == Data(code)[s..i]
      invariant if i == 0 then s == 0 else InBlock(code, s, i)
      invariant Chopped(code, starts, functionData, s)
    {
      var datum := data[i];
      assert datum == DatumAt(code, i) && (datum.nodeStart <==> Starts(code, i));
      if datum.nodeStart {
        OpenBlock(code, i);
        if basicBlockData != [] {
          CloseBlock(code, starts, functionData, s, i);
          functionData := functionData + [basicBlockData];
          starts := starts + [s];
        }
        basicBlockData := [datum];
        s := i;
      } else {
        GrowBlock(code, s, i);
        basicBlockData := basicBlockData + [datum];
      }
    }
    CloseBlock(code, starts, functionData, s, |code|);
    functionData := functionData + [basicBlockData];
    starts := starts + [s];
    ChoppedConcat(code, starts, functionData, |code|);
    ChoppedNonempty(code, starts, functionData, |code|);
    assert data[..|code|] == data;
  }

  // ---------- Creating the objects ----------

  ghost predicate BlankNode(n: Node)
    reads n
  {
    && n.reachableInstrumentedAddrs == {} && n.addrsReachableWithoutAnyInstrumentation == {}
    && n.linesFromAddrsReachableWoInstrumentation == {} && !n.fallback
  }

  /** A block before its predecessors are known. */
  ghost function Unlinked(code: seq<Instruction>, a: Addr): Block
    requires IsBlockKey(code, a)
  {
    BuiltBlock(code, a).(prevs := {})
  }

  ghost predicate Lists(block: seq<Datum>, part: seq<Instruction>) {
    && |block| == |part|
    && forall m | 0 <= m < |block| :: block[m].addr == part[m].addr && block[m].isTraced == part[m].isTraced
  }

  lemma {:induction false} ChopLists(code: seq<Instruction>, s: nat, block: seq<Datum>)
    requires IsChop(code, s, block)
    ensures block != [] && block[|block| - 1] == DatumAt(code, EndOf(code, s))
    ensures Lists(block, code[s..EndOf(code, s) + 1])
  {
    var e := EndOf(code, s);
    assert |block| == e + 1 - s;
    forall m | 0 <= m < |block|
      ensures block[m] == DatumAt(code, s + m) && code[s..e + 1][m] == code[s + m]
    {
      assert block[m] == Data(code)[s + m];
    }
    assert block[e - s] == DatumAt(code, e);
  }

  lemma {:induction false} AddrsOfPart(block: seq<Datum>, code: seq<Instruction>, s: nat, e: nat)
    requires s <= e < |code| && Lists(block, code[s..e + 1])
    ensures (set d | d in block :: d.addr) == set k: nat | s <= k <= e :: code[k].addr
  {
    var addrs := set d | d in block :: d.addr;
    forall k: nat | s <= k <= e
      ensures code[k].addr in addrs
    {
      assert block[k - s] in block;
    }
    forall d | d in block
      ensures d.addr in (set k: nat | s <= k <= e :: code[k].addr)
    {
      var m :| 0 <= m < |block| && block[m] == d;
      assert d.addr == code[s + m].addr;
    }
  }

  lemma {:induction false} TracesOfPart(block: seq<Datum>, code: seq<Instruction>, s: nat, e: nat)
    requires s <= e < |code| && Lists(block, code[s..e + 1])
    ensures (exists d :: d in block && d.isTraced) <==> exists k :: s <= k <= e && code[k].isTraced
  {
    if d :| d in block && d.isTraced {
      var m :| 0 <= m < |block| && block[m] == d;
      assert code[s + m].isTraced;
    }
    if k :| s <= k <= e && code[k].isTraced {
      assert block[k - s] in block && block[k - s].isTraced;
    }
  }

  lemma {:induction false} UnlinkedIs(code: seq<Instruction>, s: nat)
    requires Listing(code) && Starts(code, s)
    ensures IsBlockKey(code, code[s].addr)
    ensures Unlinked(code, code[s].addr) ==
      Block(BlockAddrs(code, s), {}, BlockNexts(code, s), if Traced(code, s) then {code[s].addr} else {}, {})
  {
    KeyIndexIs(code, s);
  }

  /** The block of some data, without what only the head has. */
  function BlockFrom(block: seq<Datum>): Block
    requires block != []
  {
    var addr, last := block[0].addr, block[|block| - 1];
    Block(set d | d in block :: d.addr,
          {},
          if !last.isRet then last.nextAddr else {},
          if exists d :: d in block && d.isTraced then {addr} else {},
          {})
  }

  lemma {:induction false} ChoppedBlock(code: seq<Instruction>, s: nat, block: seq<Datum>)
    requires Listing(code) && IsChop(code, s, block)
    ensures block != [] && block[0].addr == code[s].addr && IsBlockKey(code, code[s].addr)
    ensures Unlinked(code, code[s].addr) ==
            if s == 0 then BlockFrom(block).(instrumented := BlockFrom(block).instrumented + {code[s].addr}) else BlockFrom(block)
  {
    UnlinkedIs(code, s);
    ChopLists(code, s, block);
    ChoppedParts(code, s, block);
  }

  lemma {:induction false} ChoppedParts(code: seq<Instruction>, s: nat, block: seq<Datum>)
    requires Starts(code, s) && block != [] && block[0].addr == code[s].addr
    requires block[|block| - 1] == DatumAt(code, EndOf(code, s)) && Lists(block, code[s..EndOf(code, s) + 1])
    ensures BlockFrom(block).addrs == BlockAddrs(code, s) && BlockFrom(block).nexts == BlockNexts(code, s)
    ensures Traced(code, s) <==> s == 0 || BlockFrom(block).instrumented == {code[s].addr}
    ensures BlockFrom(block).instrumented <= {code[s].addr}
  {
    AddrsOfPart(block, code, s, EndOf(code, s));
    TracesOfPart(block, code, s, EndOf(code, s));
  }

  /** The node of one block; the first one is instrumented in any case. */
  method CreateBasicBlock(block: seq<Datum>, isHead: bool, ghost code: seq<Instruction>, ghost s: nat) returns (node: Node)
    requires Listing(code) && IsChop(code, s, block) && (isHead <==> s == 0)
    ensures fresh(node) && BlankNode(node) && IsBlockKey(code, code[s].addr)
    ensures node.addr == code[s].addr && node.AsBlock() == Unlinked(code, code[s].addr)
  {
    ChoppedBlock(code, s, block);
    node := new Node(block[0].addr, BlockFrom(block));
    if isHead {
      node.instrumentedAddrs := node.instrumentedAddrs + {node.addr};
    }
  }

  /** The node made for the block that starts at `s`. */
  ghost predicate MadeFor(code: seq<Instruction>, s: nat, n: Node)
    reads n
  {
    && Starts(code, s) && IsBlockKey(code, code[s].addr)
    && n.addr == code[s].addr && n.AsBlock() == Unlinked(code, code[s].addr) && BlankNode(n)
  }

  /** The dictionary holds exactly the nodes made, each under its own address. */
  ghost predicate Entered(made: seq<Node>, nodes: map<Addr, Node>) {
    && (forall k {:trigger made[k]} | 0 <= k < |made| :: made[k].addr in nodes && nodes[made[k].addr] == made[k])
    && (forall a {:trigger nodes[a]} | a in nodes :: nodes[a] in made && nodes[a].addr == a)
  }

  /** The tails are the nodes whose block ends in a return. */
  ghost predicate TailsOf(code: seq<Instruction>, starts: seq<nat>, made: seq<Node>, tail: set<Node>) {
    && |made| == |starts| && (forall t | t in tail :: t in made)
    && (forall k {:trigger made[k] in tail} | 0 <= k < |made| ::
         starts[k] < |code| && (made[k] in tail <==> code[EndOf(code, starts[k])].isRet))
  }

  lemma {:induction false} EnteredOneMore(made: seq<Node>, nodes: map<Addr, Node>, n: Node)
    requires Entered(made, nodes) && n.addr !in nodes
    ensures Entered(made + [n], nodes[n.addr := n])
  {
    var made', nodes' := made + [n], nodes[n.addr := n];
    forall k | 0 <= k < |made'|
      ensures made'[k].addr in nodes' && nodes'[made'[k].addr] == made'[k]
    {
      if k < |made| { assert made'[k] == made[k]; }
    }
    forall a | a in nodes'
      ensures nodes'[a] in made' && nodes'[a].addr == a
    {
      if a != n.addr { assert nodes[a] in made; }
    }
  }

  lemma {:induction false} TailsOneMore(code: seq<Instruction>, starts: seq<nat>, made: seq<Node>, tail: set<Node>, s: nat, n: Node)
    requires TailsOf(code, starts, made, tail) && s < |code| && n !in made
    ensures TailsOf(code, starts + [s], made + [n], if code[EndOf(code, s)].isRet then tail + {n} else tail)
  {
    var made', tail' := made + [n], if code[EndOf(code, s)].isRet then tail + {n} else tail;
    forall k | 0 <= k < |made'|
      ensures (starts + [s])[k] < |code|
      ensures made'[k] in tail' <==> code[EndOf(code, (starts + [s])[k])].isRet
    {
      if k < |made| { assert made'[k] == made[k] && (made[k] in tail || made[k] !in tail); }
    }
  }

  lemma {:induction false} StartsIncrease(code: seq<Instruction>, starts: seq<nat>, blocks: seq<seq<Datum>>, end: nat, j: nat, k: nat)
    requires Chopped(code, starts, blocks, end) && j < k < |starts|
    ensures starts[j] < starts[k]
  {
    assert Follows(code, starts, k);
    if j < k - 1 {
      StartsIncrease(code, starts, blocks, end, j, k - 1);
    }
  }

  ghost predicate AllMade(code: seq<Instruction>, starts: seq<nat>, made: seq<Node>)
    reads made
  {
    && |made| == |starts|
    && forall k {:trigger MadeFor(code, starts[k], made[k])} | 0 <= k < |made| :: MadeFor(code, starts[k], made[k])
  }

  lemma {:induction false} MadeOneMore(code: seq<Instruction>, starts: seq<nat>, made: seq<Node>, s: nat, n: Node)
    requires AllMade(code, starts, made) && MadeFor(code, s, n)
    ensures AllMade(code, starts + [s], made + [n])
  {
    forall k | 0 <= k < |made| + 1
      ensures MadeFor(code, (starts + [s])[k], (made + [n])[k])
    {
      if k < |made| { assert MadeFor(code, starts[k], made[k]); }
    }
  }

  lemma {:induction false} NewKey(code: seq<Instruction>, starts: seq<nat>, blocks: seq<seq<Datum>>, made: seq<Node>, nodes: map<Addr, Node>, k: nat)
    requires Listing(code) && Chopped(code, starts, blocks, |code|) && k == |made| < |starts|
    requires AllMade(code, starts[..k], made) && Entered(made, nodes)
    ensures code[starts[k]].addr !in nodes && (k == 0 <==> starts[k] == 0)
  {
    assert IsChop(code, starts[k], blocks[k]);
    forall n | n in made
      ensures n.addr != code[starts[k]].addr
    {
      var j :| 0 <= j < k && made[j] == n;
      StartsIncrease(code, starts, blocks, |code|, j, k);
      assert MadeFor(code, starts[..k][j], made[j]);
    }
    if k > 0 {
      StartsIncrease(code, starts, blocks, |code|, 0, k);
    }
  }

  /** Makes the node of one block and enters it as head, tail and under its address. */
  method AddNode(basicBlockData: seq<Datum>, nodes: map<Addr, Node>, head: Node?, tail: set<Node>,
                 ghost code: seq<Instruction>, ghost starts: seq<nat>, ghost made: seq<Node>, ghost s: nat)
    returns (basicBlock: Node, nodes': map<Addr, Node>, head': Node, tail': set<Node>)
    requires Listing(code) && IsChop(code, s, basicBlockData) && (head == null <==> s == 0)
    requires Entered(made, nodes) && TailsOf(code, starts, made, tail) && code[s].addr !in nodes
    requires AllMade(code, starts, made)
    ensures fresh(basicBlock) && AllMade(code, starts + [s], made + [basicBlock])
    ensures Entered(made + [basicBlock], nodes') && TailsOf(code, starts + [s], made + [basicBlock], tail')
    ensures head' == if head == null then basicBlock else head
  {
    ChopLists(code, s, basicBlockData);
    basicBlock := CreateBasicBlock(basicBlockData, head == null, code, s);
    EnteredOneMore(made, nodes, basicBlock);
    TailsOneMore(code, starts, made, tail, s, basicBlock);
    MadeOneMore(code, starts, made, s, basicBlock);
    head' := if head == null then basicBlock else head;
    tail' := tail;
    if basicBlockData[|basicBlockData| - 1].isRet {
      tail' := tail' + {basicBlock};
    }
    nodes' := nodes[basicBlock.addr := basicBlock];
  }

  /** Makes the nodes of all blocks. */
  method CreateNodes(functionData: seq<seq<Datum>>, ghost code: seq<Instruction>, ghost starts: seq<nat>)
    returns (nodes: map<Addr, Node>, head: Node?, tail: set<Node>, ghost made: seq<Node>)
    requires Listing(code) && Chopped(code, starts, functionData, |code|)
    ensures Entered(made, nodes) && TailsOf(code, starts, made, tail)
    ensures |made| == |starts| > 0 && head == made[0]
    ensures AllMade(code, starts, made) && forall n | n in made :: fresh(n)
  {
    nodes, head, tail, made := map[], null, {}, [];
    for k := 0 to |functionData|
      invariant Entered(made, nodes) && TailsOf(code, starts[..k], made, tail) && |made| == k
      invariant if k == 0 then head == null else head == made[0]
      invariant AllMade(code, starts[..k], made) && forall n | n in made :: fresh(n)
    {
      assert IsChop(code, starts[k], functionData[k]);
      NewKey(code, starts, functionData, made, nodes, k);
      var basicBlock;
      basicBlock, nodes, head, tail :=
        AddNode(functionData[k], nodes, head, tail, code, starts[..k], made, starts[k]);
      made := made + [basicBlock];
      assert starts[..k + 1] == starts[..k] + [starts[k]];
    }
    assert starts[..|functionData|] == starts;
  }

  // ---------- Filling in the predecessors ----------

  ghost function WithPrevs(code: seq<Instruction>, a: Addr, done: set<Addr>): Block
    requires IsBlockKey(code, a)
  {
    BuiltBlock(code, a).(prevs := PrevsAmong(code, a, done))
  }

  /** The nodes carry their final blocks, but for the predecessors outside `done`. */
  ghost predicate PrevsFrom(cfg: FunctionCFG, code: seq<Instruction>, done: set<Addr>)
    reads cfg, cfg.repr
  {
    && cfg.Valid() && cfg.nodes.Keys == Keys(code)
    && forall a {:trigger HasPrevs(code, a, cfg.nodes[a], done)} | a in cfg.nodes :: HasPrevs(code, a, cfg.nodes[a], done)
  }

  ghost predicate HasPrevs(code: seq<Instruction>, a: Addr, n: Node, done: set<Addr>)
    reads n
  {
    IsBlockKey(code, a) && n.AsBlock() == WithPrevs(code, a, done)
  }

  lemma {:induction false} OneMorePrev(code: seq<Instruction>, a: Addr, done: set<Addr>, c: Addr)
    requires IsBlockKey(code, c)
    ensures PrevsAmong(code, a, done + {c}) ==
      PrevsAmong(code, a, done) + if a in BlockNexts(code, KeyIndex(code, c)) then {c} else {}
  {
  }

  /** A node becomes a predecessor of all its successors. */
  method AddPrevTo(cfg: FunctionCFG, nexts: set<Addr>, addr: Addr)
    requires cfg.Valid() && nexts <= cfg.nodes.Keys
    modifies cfg.repr`prevs
    ensures forall a {:trigger cfg.nodes[a]} | a in cfg.nodes ::
      cfg.nodes[a].AsBlock() == WithPrev(old(cfg.nodes[a].AsBlock()), a in nexts, addr)
  {
    var todo := nexts;
    while todo != {}
      invariant todo <= nexts
      invariant forall a {:trigger cfg.nodes[a]} | a in cfg.nodes ::
        cfg.nodes[a].prevs == old(cfg.nodes[a].prevs) + if a in nexts && a !in todo then {addr} else {}
    {
      var nextAddr := Pick(todo);
      todo := todo - {nextAddr};
      cfg.nodes[nextAddr].prevs := cfg.nodes[nextAddr].prevs + {addr};
    }
  }

  function WithPrev(b: Block, isNext: bool, addr: Addr): Block {
    b.(prevs := b.prevs + if isNext then {addr} else {})
  }

  /** The same for one node of the dictionary, from which no successor is missing. */
  method AddAsPrev(cfg: FunctionCFG, addr: Addr, ghost code: seq<Instruction>, ghost done: set<Addr>)
    requires Listing(code) && PrevsFrom(cfg, code, done) && addr in cfg.nodes
    modifies cfg.repr`prevs
    ensures PrevsFrom(cfg, code, done + {addr})
  {
    assert HasPrevs(code, addr, cfg.nodes[addr], done);
    assert cfg.nodes[addr].AsBlock().nexts == BlockNexts(code, KeyIndex(code, addr));
    var nexts := cfg.nodes[addr].nexts;
    forall b | b in nexts
      ensures b in cfg.nodes
    {
      NextsAreBlocks(code, KeyIndex(code, addr), b);
      KeysAreBlockKeys(code, b);
    }
    AddPrevTo(cfg, nexts, addr);
    forall a | a in cfg.nodes
      ensures HasPrevs(code, a, cfg.nodes[a], done + {addr})
    {
      assert old(HasPrevs(code, a, cfg.nodes[a], done));
      OneMorePrev(code, a, done, addr);
    }
  }

  /** Fills in the predecessors of all nodes. */
  method FillPrevs(cfg: FunctionCFG, ghost code: seq<Instruction>)
    requires Listing(code) && PrevsFrom(cfg, code, {})
    modifies cfg.repr`prevs
    ensures PrevsFrom(cfg, code, Keys(code))
  {
    var todo := cfg.nodes.Keys;
    ghost var done: set<Addr> := {};
    while todo != {}
      invariant done + todo == cfg.nodes.Keys
      invariant PrevsFrom(cfg, code, done)
    {
      var addr := Pick(todo);
      AddAsPrev(cfg, addr, code, done);
      todo, done := todo - {addr}, done + {addr};
    }
  }

  lemma {:induction false} NodeMade(code: seq<Instruction>, s: nat, n: Node)
    requires Listing(code) && MadeFor(code, s, n)
    ensures IsBlockKey(code, n.addr) && n.addr in Keys(code) && KeyIndex(code, n.addr) == s
    ensures n.AsBlock() == WithPrevs(code, n.addr, {}) && BlankNode(n)
  {
    KeyIndexIs(code, s);
    KeysAreBlockKeys(code, n.addr);
    assert PrevsAmong(code, n.addr, {}) == {};
  }

  lemma {:induction false} KeysMade(code: seq<Instruction>, starts: seq<nat>, blocks: seq<seq<Datum>>, made: seq<Node>, nodes: map<Addr, Node>)
    requires Listing(code) && Chopped(code, starts, blocks, |code|) && AllMade(code, starts, made) && Entered(made, nodes)
    ensures nodes.Keys == Keys(code)
  {
    forall a | a in nodes
      ensures a in Keys(code)
    {
      var k :| 0 <= k < |made| && made[k] == nodes[a];
      assert MadeFor(code, starts[k], made[k]);
      NodeMade(code, starts[k], made[k]);
    }
    forall a | a in Keys(code)
      ensures a in nodes
    {
      KeysAreBlockKeys(code, a);
      ChopOf(code, starts, blocks, |code|, KeyIndex(code, a));
      var k :| 0 <= k < |starts| && starts[k] == KeyIndex(code, a);
      assert MadeFor(code, starts[k], made[k]);
    }
  }

  lemma {:induction false} NodesMade(code: seq<Instruction>, starts: seq<nat>, made: seq<Node>, nodes: map<Addr, Node>)
    requires Listing(code) && AllMade(code, starts, made) && Entered(made, nodes)
    ensures forall a {:trigger nodes[a]} | a in nodes ::
      IsBlockKey(code, a) && nodes[a].AsBlock() == WithPrevs(code, a, {}) && BlankNode(nodes[a])
  {
    forall a | a in nodes
      ensures IsBlockKey(code, a) && nodes[a].AsBlock() == WithPrevs(code, a, {}) && BlankNode(nodes[a])
    {
      var k :| 0 <= k < |made| && made[k] == nodes[a];
      assert MadeFor(code, starts[k], made[k]);
      NodeMade(code, starts[k], made[k]);
    }
  }

  lemma {:induction false} TailsMade(code: seq<Instruction>, starts: seq<nat>, made: seq<Node>, nodes: map<Addr, Node>, tail: set<Node>)
    requires Listing(code) && AllMade(code, starts, made) && Entered(made, nodes) && nodes.Keys == Keys(code)
    requires TailsOf(code, starts, made, tail)
    ensures (set t | t in tail :: t.addr) == BuiltGraph(code).tail
    ensures forall t | t in tail :: t.addr in nodes && nodes[t.addr] == t
  {
    forall n | n in made
      ensures n.addr in nodes && nodes[n.addr] == n
      ensures n in tail <==> n.addr in BuiltGraph(code).tail
    {
      var k :| 0 <= k < |made| && made[k] == n;
      assert MadeFor(code, starts[k], made[k]);
      NodeMade(code, starts[k], made[k]);
      assert made[k] in tail <==> code[EndOf(code, starts[k])].isRet;
    }
    forall a | a in BuiltGraph(code).tail
      ensures a in (set t | t in tail :: t.addr)
    {
      assert nodes[a] in made && nodes[a].addr == a;
    }
  }

  /** The nodes of a function, before their predecessors are known. */
  method CreateObjects(name: string, functionData: seq<seq<Datum>>, ghost code: seq<Instruction>, ghost starts: seq<nat>)
    returns (cfg: FunctionCFG)
    requires Listing(code) && Chopped(code, starts, functionData, |code|)
    ensures fresh(cfg) && fresh(cfg.repr) && cfg.name == name
    ensures cfg.Unlabelled() && PrevsFrom(cfg, code, {})
    ensures cfg.head.addr == code[0].addr && cfg.TailAddrs() == BuiltGraph(code).tail
  {
    var nodes, head, tail, made := CreateNodes(functionData, code, starts);
    KeysMade(code, starts, functionData, made, nodes);
    NodesMade(code, starts, made, nodes);
    TailsMade(code, starts, made, nodes, tail);
    assert MadeFor(code, starts[0], made[0]);
    cfg := new FunctionCFG(name, head, tail, nodes);
  }

  lemma {:induction false} FinalBlock(code: seq<Instruction>, a: Addr, n: Node)
    requires code != [] && a in Keys(code) && HasPrevs(code, a, n, Keys(code))
    ensures a in BuiltGraph(code).nodes && n.AsBlock() == BuiltGraph(code).nodes[a]
  {
  }

  lemma {:induction false} BuiltKeys(code: seq<Instruction>)
    requires code != []
    ensures BuiltGraph(code).nodes.Keys == Keys(code)
  {
  }

  lemma {:induction false} ShowsBuiltGraph(cfg: FunctionCFG, code: seq<Instruction>)
    requires Listing(code) && PrevsFrom(cfg, code, Keys(code))
    requires cfg.head.addr == code[0].addr && cfg.TailAddrs() == BuiltGraph(code).tail
    ensures cfg.View() == BuiltGraph(code)
  {
    var g := BuiltGraph(code);
    BuiltKeys(code);
    forall a | a in cfg.nodes
      ensures cfg.nodes[a].AsBlock() == g.nodes[a]
    {
      FinalBlock(code, a, cfg.nodes[a]);
    }
    cfg.ViewIs(g);
  }

  /** From the blocks of a function to its graph. */
  method CreateFunctionCfg(name: string, functionData: seq<seq<Datum>>, ghost code: seq<Instruction>, ghost starts: seq<nat>)
    returns (cfg: FunctionCFG)
    requires Listing(code) && Chopped(code, starts, functionData, |code|)
    ensures fresh(cfg) && fresh(cfg.repr) && cfg.name == name
    ensures cfg.Valid() && cfg.Unlabelled() && cfg.View() == BuiltGraph(code)
  {
    cfg := CreateObjects(name, functionData, code, starts);
    FillPrevs(cfg, code);
    assert cfg.head.addr == code[0].addr && cfg.TailAddrs() == BuiltGraph(code).tail;
    ShowsBuiltGraph(cfg, code);
  }

  /** From the instructions of a function to its graph. */
  method BuildFunction(name: string, code: seq<Instruction>) returns (cfg: FunctionCFG)
    requires Listing(code)
    ensures fresh(cfg) && fresh(cfg.repr) && cfg.name == name
    ensures cfg.Valid() && cfg.Unlabelled() && cfg.View() == BuiltGraph(code)
  {
    var data, addrToIndex, jumps := Scan(code);
    data := FollowJumps(code, data, addrToIndex, jumps);
    assert data == Data(code);
    var functionData;
    ghost var starts;
    functionData, starts := Split(code, data);
    cfg := CreateFunctionCfg(name, functionData, code, starts);
  }
}
