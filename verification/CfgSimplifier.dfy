/** The simplifier's mutable graph: nodes and functions are objects whose sets are updated in
    place.  Every method is tied to the graph values of FlowGraph through `View`. */
module CfgSimplifier {
  import opened FlowGraph
  import opened GraphPayload
  import opened GraphSearch
  import opened SetChoice

  /** More nodes than this after simplification count as a failure. */
  const MAX_NODES := 1000

  class Node {
    const addr: Addr
    var addrs: set<Addr>
    var prevs: set<Addr>
    var nexts: set<Addr>
    var instrumentedAddrs: set<Addr>
    var lines: set<LineInfo>
    var reachableInstrumentedAddrs: set<Addr>
    var addrsReachableWithoutAnyInstrumentation: set<Addr>
    var linesFromAddrsReachableWoInstrumentation: set<LineInfo>
    var fallback: bool

    constructor (addr: Addr, b: Block)
      ensures this.addr == addr && AsBlock() == b && !fallback
      ensures reachableInstrumentedAddrs == {} && addrsReachableWithoutAnyInstrumentation == {}
      ensures linesFromAddrsReachableWoInstrumentation == {}
    {
      this.addr := addr;
      addrs, prevs, nexts := b.addrs, b.prevs, b.nexts;
      instrumentedAddrs, lines := b.instrumented, b.lines;
      reachableInstrumentedAddrs, addrsReachableWithoutAnyInstrumentation := {}, {};
      linesFromAddrsReachableWoInstrumentation := {};
      fallback := false;
    }

    function AsBlock(): Block
      reads this`addrs, this`prevs, this`nexts, this`instrumentedAddrs, this`lines
    {
      Block(addrs, prevs, nexts, instrumentedAddrs, lines)
    }
  }

  /** Python's `set.remove`, which raises when the element is missing. */
  function Remove<T(==)>(s: set<T>, x: T): set<T>
    requires x in s
  {
    s - {x}
  }

  class FunctionCFG {
    const name: string
    ghost const repr: set<Node>   // the nodes the function started with
    var head: Node
    var tail: set<Node>
    var nodes: map<Addr, Node>

    constructor (name: string, head: Node, tail: set<Node>, nodes: map<Addr, Node>)
      requires forall a | a in nodes :: nodes[a].addr == a
      requires head.addr in nodes && nodes[head.addr] == head
      requires forall t | t in tail :: t.addr in nodes && nodes[t.addr] == t
      ensures Valid()
      ensures repr == nodes.Values
      ensures this.name == name && this.head == head && this.tail == tail && this.nodes == nodes
    {
      this.name, this.head, this.tail, this.nodes := name, head, tail, nodes;
      repr := nodes.Values;
    }

    ghost predicate Keyed()
      reads this`nodes
    {
      forall a | a in nodes :: nodes[a].addr == a && nodes[a] in repr
    }

    /** Keys are the nodes' own addresses, so that equality by address is equality of objects. */
    ghost predicate Valid()
      reads this
    {
      && Keyed()
      && head.addr in nodes && nodes[head.addr] == head
      && forall t | t in tail :: t.addr in nodes && nodes[t.addr] == t
    }

    function TailAddrs(): set<Addr>
      reads this
    {
      set t | t in tail :: t.addr
    }

    function View(): Graph
      requires Keyed()
      reads this, repr`addrs, repr`prevs, repr`nexts
      reads repr`instrumentedAddrs, repr`lines
    {
      Graph(head.addr, TailAddrs(), map a | a in nodes :: nodes[a].AsBlock())
    }

    /** Comparing block by block is enough. */
    lemma {:induction false} ViewIs(g: Graph)
      requires Keyed()
      requires g.head == head.addr && g.tail == TailAddrs() && g.nodes.Keys == nodes.Keys
      requires forall a | a in nodes :: nodes[a].AsBlock() == g.nodes[a]
      ensures View() == g
    {
      assert View().nodes == g.nodes;
    }

    /** Takes every edge of a node to itself out of both of its sets. */
    method RemoveSelfLoops()
      requires Valid()
      modifies repr`addrs, repr`prevs, repr`nexts
      modifies repr`instrumentedAddrs, repr`lines
      ensures Valid()
      ensures View() == WithoutSelfLoops(old(View()))
    {
      ghost var g := View();
      var todo := nodes.Keys;
      while todo != {}
        invariant todo <= nodes.Keys
        invariant forall a | a in nodes ::
          nodes[a].AsBlock() == if a in todo then g.nodes[a] else WithoutSelfLoop(g.nodes[a], a)
      {
        var a := Pick(todo);
        todo := todo - {a};
        var node := nodes[a];
        if a in node.nexts {
          node.nexts := Remove(node.nexts, a);
        }
        if a in node.prevs {
          node.prevs := Remove(node.prevs, a);
        }
      }
      ViewIs(WithoutSelfLoops(g));
    }

    /** Where control went to a node that is gone, it goes to another one. */
    method RedirectNexts(at: set<Addr>, gone: Addr, to: Addr)
      requires at <= nodes.Keys
      requires forall a | a in at :: gone in nodes[a].nexts
      requires Keyed()
      modifies repr`nexts
      ensures forall a | a in nodes ::
        nodes[a].nexts == if a in at then Redirect(old(nodes[a].nexts), gone, to) else old(nodes[a].nexts)
      ensures forall n | n in repr && n.addr !in nodes :: n.nexts == old(n.nexts)
    {
      var todo := at;
      while todo != {}
        invariant todo <= at
        invariant forall a | a in nodes ::
          nodes[a].nexts == if a in at - todo then Redirect(old(nodes[a].nexts), gone, to) else old(nodes[a].nexts)
        invariant forall n | n in repr && n.addr !in nodes :: n.nexts == old(n.nexts)
      {
        var a := Pick(todo);
        todo := todo - {a};
        nodes[a].nexts := Remove(nodes[a].nexts, gone);
        nodes[a].nexts := nodes[a].nexts + {to};
      }
    }

    /** Where control came from a node that is gone, it comes from another one. */
    method RedirectPrevs(at: set<Addr>, gone: Addr, to: Addr)
      requires at <= nodes.Keys
      requires forall a | a in at :: gone in nodes[a].prevs
      requires Keyed()
      modifies repr`prevs
      ensures forall a | a in nodes ::
        nodes[a].prevs == if a in at then Redirect(old(nodes[a].prevs), gone, to) else old(nodes[a].prevs)
      ensures forall n | n in repr && n.addr !in nodes :: n.prevs == old(n.prevs)
    {
      var todo := at;
      while todo != {}
        invariant todo <= at
        invariant forall a | a in nodes ::
          nodes[a].prevs == if a in at - todo then Redirect(old(nodes[a].prevs), gone, to) else old(nodes[a].prevs)
        invariant forall n | n in repr && n.addr !in nodes :: n.prevs == old(n.prevs)
      {
        var a := Pick(todo);
        todo := todo - {a};
        nodes[a].prevs := Remove(nodes[a].prevs, gone);
        nodes[a].prevs := nodes[a].prevs + {to};
      }
    }

    /** All edges of the deleted node are moved to the one that is kept. */
    method RedirectEdges(nodeToDelete: Node, nodeToKeep: Node)
      requires Keyed()
      requires nodeToDelete.prevs <= nodes.Keys && nodeToDelete.nexts <= nodes.Keys
      requires forall a | a in nodeToDelete.prevs :: nodeToDelete.addr in nodes[a].nexts
      requires forall a | a in nodeToDelete.nexts :: nodeToDelete.addr in nodes[a].prevs
      requires nodeToDelete.addr !in nodes
      modifies repr`addrs, repr`prevs, repr`nexts
      modifies repr`instrumentedAddrs, repr`lines
      ensures forall a | a in nodes ::
        nodes[a].AsBlock() ==
          Redirected(old(nodes[a].AsBlock()), a, nodeToDelete.AsBlock(), nodeToDelete.addr, nodeToKeep.addr)
      ensures nodeToDelete.AsBlock() == old(nodeToDelete.AsBlock())
    {
      RedirectNexts(nodeToDelete.prevs, nodeToDelete.addr, nodeToKeep.addr);
      RedirectPrevs(nodeToDelete.nexts, nodeToDelete.addr, nodeToKeep.addr);
    }

    /** The edge between the two nodes goes, and one of them leaves the graph. */
    method Detach(prevAddr: Addr, nextAddr: Addr, mergeToPrev: bool) returns (nodeToDelete: Node, nodeToKeep: Node)
      requires Valid() && prevAddr in nodes && nextAddr in nodes && prevAddr != nextAddr
      requires nextAddr in nodes[prevAddr].nexts && prevAddr in nodes[nextAddr].prevs
      modifies this`nodes, {nodes[prevAddr]}`nexts, {nodes[nextAddr]}`prevs
      ensures nodeToDelete == old(nodes[Dropped(prevAddr, nextAddr, mergeToPrev)])
      ensures nodeToKeep == old(nodes[Kept(prevAddr, nextAddr, mergeToPrev)])
      ensures nodes == old(nodes) - {nodeToDelete.addr}
      ensures old(nodes[prevAddr]).AsBlock() == old(Source(View(), prevAddr, nextAddr))
      ensures old(nodes[nextAddr]).AsBlock() == old(Target(View(), prevAddr, nextAddr))
    {
      var prevNode, nextNode := nodes[prevAddr], nodes[nextAddr];
      nodes := nodes - {if mergeToPrev then nextAddr else prevAddr};
      prevNode.nexts := Remove(prevNode.nexts, nextAddr);
      nextNode.prevs := Remove(nextNode.prevs, prevAddr);
      nodeToDelete := if mergeToPrev then nextNode else prevNode;
      nodeToKeep := if mergeToPrev then prevNode else nextNode;
    }

    /** A node takes over another one's edges, addresses and lines. */
    static method Inherit(heir: Node, dead: Node)
      requires heir != dead
      modifies heir`addrs, heir`prevs, heir`nexts, heir`instrumentedAddrs, heir`lines
      ensures heir.AsBlock() == Union(old(heir.AsBlock()), old(dead.AsBlock()))
    {
      heir.addrs := heir.addrs + dead.addrs;
      heir.prevs := heir.prevs + dead.prevs;
      heir.nexts := heir.nexts + dead.nexts;
      heir.instrumentedAddrs := heir.instrumentedAddrs + dead.instrumentedAddrs;
      heir.lines := heir.lines + dead.lines;
    }

    /** The node that stays takes the place of the deleted one as head and as tail. */
    method Replace(nodeToDelete: Node, nodeToKeep: Node)
      requires nodeToDelete.addr !in nodes && nodeToKeep.addr in nodes && nodes[nodeToKeep.addr] == nodeToKeep
      requires Keyed()
      requires forall t | t in tail + {head} && t != nodeToDelete :: t.addr in nodes && nodes[t.addr] == t
      modifies this`head, this`tail
      ensures Valid()
      ensures head.addr == if old(head.addr) == nodeToDelete.addr then nodeToKeep.addr else old(head.addr)
      ensures TailAddrs() ==
        if nodeToDelete.addr in old(TailAddrs())
        then Redirect(old(TailAddrs()), nodeToDelete.addr, nodeToKeep.addr) else old(TailAddrs())
    {
      if nodeToDelete == head {
        head := nodeToKeep;
      }
      if nodeToDelete in tail {
        tail := Remove(tail, nodeToDelete);
        tail := tail + {nodeToKeep};
        assert old(nodeToDelete.addr in TailAddrs());
        assert TailAddrs() == Redirect(old(TailAddrs()), nodeToDelete.addr, nodeToKeep.addr);
      }
    }

    /** What is left of a node on its way out goes to the node that stays. */
    method Fuse(nodeToDelete: Node, nodeToKeep: Node)
      requires nodeToDelete.addr !in nodes && nodeToKeep.addr in nodes && nodes[nodeToKeep.addr] == nodeToKeep
      requires Keyed()
      requires forall t | t in tail + {head} && t != nodeToDelete :: t.addr in nodes && nodes[t.addr] == t
      requires nodeToDelete.prevs <= nodes.Keys && nodeToDelete.nexts <= nodes.Keys
      requires forall a | a in nodeToDelete.prevs :: nodeToDelete.addr in nodes[a].nexts
      requires forall a | a in nodeToDelete.nexts :: nodeToDelete.addr in nodes[a].prevs
      modifies this`head, this`tail, repr`addrs, repr`prevs, repr`nexts
      modifies repr`instrumentedAddrs, repr`lines
      ensures Valid()
      ensures head.addr == if old(head.addr) == nodeToDelete.addr then nodeToKeep.addr else old(head.addr)
      ensures TailAddrs() ==
        if nodeToDelete.addr in old(TailAddrs())
        then Redirect(old(TailAddrs()), nodeToDelete.addr, nodeToKeep.addr) else old(TailAddrs())
      ensures forall a | a in nodes ::
        nodes[a].AsBlock() == MergedBlock(old(View()), a, nodeToKeep.addr, old(nodeToKeep.AsBlock()),
                                          nodeToDelete.addr, old(nodeToDelete.AsBlock()))
    {
      ghost var g, dead := View(), nodeToDelete.AsBlock();
      RedirectEdges(nodeToDelete, nodeToKeep);
      assert forall a | a in nodes ::
        nodes[a].AsBlock() == Redirected(g.nodes[a], a, dead, nodeToDelete.addr, nodeToKeep.addr);
      Inherit(nodeToKeep, nodeToDelete);
      Replace(nodeToDelete, nodeToKeep);
    }

    /** Without the edge and the deleted node, the graph is as it was but for the two ends. */
    static ghost predicate IsDetached(g: Graph, prev: Addr, next: Addr, toPrev: bool, detached: Graph)
      requires prev in g.nodes && next in g.nodes
    {
      && detached.head == g.head && detached.tail == g.tail
      && detached.nodes.Keys == g.nodes.Keys - {Dropped(prev, next, toPrev)}
      && forall a | a in detached.nodes && a != Kept(prev, next, toPrev) :: detached.nodes[a] == g.nodes[a]
    }

    static lemma {:induction false} FusedIsMerge(g: Graph, prev: Addr, next: Addr, toPrev: bool, detached: Graph, h: Graph)
      requires prev in g.nodes && next in g.nodes && prev != next && IsDetached(g, prev, next, toPrev, detached)
      requires var keep, drop := Kept(prev, next, toPrev), Dropped(prev, next, toPrev);
        var p, n := Source(g, prev, next), Target(g, prev, next);
        && h.head == (if g.head == drop then keep else g.head)
        && h.tail == (if drop in g.tail then Redirect(g.tail, drop, keep) else g.tail)
        && h.nodes.Keys == detached.nodes.Keys
        && forall a | a in h.nodes ::
          h.nodes[a] == MergedBlock(detached, a, keep, if toPrev then p else n, drop, if toPrev then n else p)
      ensures h == Merge(g, prev, next, toPrev)
    {
      var keep, drop := Kept(prev, next, toPrev), Dropped(prev, next, toPrev);
      var p, n := Source(g, prev, next), Target(g, prev, next);
      MergedSame(g, detached, h, keep, if toPrev then p else n, drop, if toPrev then n else p);
      MergeIs(g, prev, next, toPrev, h);
    }

    /** Only the two ends differ when their edge is gone. */
    static lemma {:induction false} MergedSame(g: Graph, detached: Graph, h: Graph, keep: Addr, heir: Block, gone: Addr, dead: Block)
      requires h.nodes.Keys == detached.nodes.Keys && h.nodes.Keys <= g.nodes.Keys
      requires forall a | a in h.nodes :: a == keep || detached.nodes[a] == g.nodes[a]
      requires forall a | a in h.nodes :: h.nodes[a] == MergedBlock(detached, a, keep, heir, gone, dead)
      ensures forall a | a in h.nodes :: h.nodes[a] == MergedBlock(g, a, keep, heir, gone, dead)
    {
    }

    /** After that, every edge of the deleted node still has both of its halves. */
    method DetachLinked(prevAddr: Addr, nextAddr: Addr, mergeToPrev: bool) returns (nodeToDelete: Node, nodeToKeep: Node)
      requires Valid() && Linked(View()) && NoSelfLoops(View())
      requires Edge(View(), prevAddr, nextAddr)
      modifies this, repr`nexts, repr`prevs
      ensures prevAddr in old(View()).nodes && nextAddr in old(View()).nodes && prevAddr != nextAddr
      ensures nodeToDelete.addr == Dropped(prevAddr, nextAddr, mergeToPrev)
      ensures nodeToKeep.addr == Kept(prevAddr, nextAddr, mergeToPrev)
      ensures var p, n := old(Source(View(), prevAddr, nextAddr)), old(Target(View(), prevAddr, nextAddr));
        && nodeToDelete.AsBlock() == (if mergeToPrev then n else p)
        && nodeToKeep.AsBlock() == (if mergeToPrev then p else n)
      ensures Keyed() && IsDetached(old(View()), prevAddr, nextAddr, mergeToPrev, View())
      ensures nodeToDelete.addr !in nodes && nodeToKeep.addr in nodes && nodes[nodeToKeep.addr] == nodeToKeep
      ensures forall t | t in tail + {head} && t != nodeToDelete :: t.addr in nodes && nodes[t.addr] == t
      ensures nodeToDelete.prevs <= nodes.Keys && nodeToDelete.nexts <= nodes.Keys
      ensures forall a | a in nodeToDelete.prevs :: nodeToDelete.addr in nodes[a].nexts
      ensures forall a | a in nodeToDelete.nexts :: nodeToDelete.addr in nodes[a].prevs
    {
      ghost var g := View();
      assert BackEdge(g, prevAddr, nextAddr);
      assert !Edge(g, prevAddr, prevAddr);
      LinkedAround(g, prevAddr, nextAddr, mergeToPrev);
      nodeToDelete, nodeToKeep := Detach(prevAddr, nextAddr, mergeToPrev);
      ghost var gone := nodeToDelete.addr;
      forall a | a in nodeToDelete.prevs
        ensures a in nodes && gone in nodes[a].nexts
      {
        assert a in g.nodes;
      }
      forall a | a in nodeToDelete.nexts
        ensures a in nodes && gone in nodes[a].prevs
      {
        assert a in g.nodes;
      }
    }

    /** Merges the two ends of an edge into the one or the other. */
    method MergeNodes(prevAddr: Addr, nextAddr: Addr, mergeToPrev: bool)
      requires Valid() && Linked(View()) && NoSelfLoops(View())
      requires Edge(View(), prevAddr, nextAddr)
      modifies this, repr`addrs, repr`prevs, repr`nexts
      modifies repr`instrumentedAddrs, repr`lines
      ensures Valid()
      ensures prevAddr in old(View()).nodes && nextAddr in old(View()).nodes
      ensures View() == Merge(old(View()), prevAddr, nextAddr, mergeToPrev)
    {
      ghost var g := View();
      var nodeToDelete, nodeToKeep := DetachLinked(prevAddr, nextAddr, mergeToPrev);
      ghost var detached := View();
      Fuse(nodeToDelete, nodeToKeep);
      FusedIsMerge(g, prevAddr, nextAddr, mergeToPrev, detached, View());
    }

    /** The successors of a node get its predecessors in its place, and its addresses and lines. */
    method HandDown(node: Node)
      requires Keyed()
      requires node.addr !in nodes && node.nexts <= nodes.Keys
      requires forall a | a in node.nexts :: node.addr in nodes[a].prevs
      modifies repr`addrs, repr`prevs, repr`nexts
      modifies repr`instrumentedAddrs, repr`lines
      ensures forall a | a in nodes ::
        nodes[a].AsBlock() ==
        if a in node.nexts
        then SkippedBlock(old(nodes[a].AsBlock()), a, node.addr, node.AsBlock()).(nexts := old(nodes[a].nexts))
        else old(nodes[a].AsBlock())
      ensures node.AsBlock() == old(node.AsBlock())
    {
      ghost var dead := node.AsBlock();
      var todo := node.nexts;
      while todo != {}
        invariant todo <= node.nexts && node.AsBlock() == dead
        invariant forall a | a in nodes ::
        nodes[a].AsBlock() ==
          if a in node.nexts - todo
          then SkippedBlock(old(nodes[a].AsBlock()), a, node.addr, dead).(nexts := old(nodes[a].nexts))
          else old(nodes[a].AsBlock())
      {
        var a := Pick(todo);
        todo := todo - {a};
        var nextBlock := nodes[a];
        nextBlock.prevs := Remove(nextBlock.prevs, node.addr);
        nextBlock.addrs := nextBlock.addrs + node.addrs;
        nextBlock.prevs := nextBlock.prevs + node.prevs;
        nextBlock.lines := nextBlock.lines + node.lines;
      }
    }

    /** The predecessors of a node get its successors in its place. */
    method JumpOver(node: Node)
      requires Keyed()
      requires node.addr !in nodes && node.prevs <= nodes.Keys
      requires forall a | a in node.prevs :: node.addr in nodes[a].nexts
      modifies repr`nexts
      ensures forall a | a in nodes ::
        nodes[a].nexts ==
        if a in node.prevs then old(nodes[a].nexts) - {node.addr} + node.nexts else old(nodes[a].nexts)
      ensures node.nexts == old(node.nexts)
    {
      var todo := node.prevs;
      while todo != {}
        invariant todo <= node.prevs && node.nexts == old(node.nexts)
        invariant forall a | a in nodes ::
          nodes[a].nexts ==
          if a in node.prevs - todo then old(nodes[a].nexts) - {node.addr} + node.nexts else old(nodes[a].nexts)
      {
        var a := Pick(todo);
        todo := todo - {a};
        nodes[a].nexts := Remove(nodes[a].nexts, node.addr);
        nodes[a].nexts := nodes[a].nexts + node.nexts;
      }
    }

    /** Both sides of a node are joined, so that nothing refers to it any more. */
    method Bridge(node: Node)
      requires Keyed()
      requires node.addr !in nodes && node.nexts <= nodes.Keys && node.prevs <= nodes.Keys
      requires forall a | a in node.nexts :: node.addr in nodes[a].prevs
      requires forall a | a in node.prevs :: node.addr in nodes[a].nexts
      modifies repr`addrs, repr`prevs, repr`nexts
      modifies repr`instrumentedAddrs, repr`lines
      ensures forall a | a in nodes ::
        nodes[a].AsBlock() == SkippedBlock(old(nodes[a].AsBlock()), a, node.addr, node.AsBlock())
      ensures node.AsBlock() == old(node.AsBlock())
    {
      HandDown(node);
      JumpOver(node);
    }

    /** Takes an uninstrumented node out and joins its predecessors to its successors. */
    method SkipNode(addr: Addr)
      requires Valid() && Linked(View()) && NoSelfLoops(View())
      requires addr in nodes && addr != head.addr && nodes[addr] !in tail
      modifies this`nodes, repr`addrs, repr`prevs, repr`nexts
      modifies repr`instrumentedAddrs, repr`lines
      ensures Valid()
      ensures addr in old(View()).nodes && View() == Skip(old(View()), addr)
    {
      ghost var g := View();
      var node := nodes[addr];
      nodes := nodes - {addr};
      forall a | a in node.nexts
        ensures a in nodes && addr in nodes[a].prevs
      {
        assert Edge(g, addr, a) && BackEdge(g, addr, a) && !Edge(g, addr, addr);
      }
      forall a | a in node.prevs
        ensures a in nodes && addr in nodes[a].nexts
      {
        assert BackEdge(g, a, addr) && Edge(g, a, addr) && !Edge(g, addr, addr);
      }
      Bridge(node);
      SkipIs(g, addr, View());
    }

    /** A node, and a successor that has no other predecessor, is no tail and has no lines of its own. */
    method FindSingleEntryNode() returns (found: bool, addr: Addr, nextAddr: Addr)
      requires Valid() && Linked(View())
      ensures found ==> Enabled(View(), Absorb(addr, nextAddr))
      ensures !found ==> NoAbsorb(View())
    {
      ghost var g := View();
      addr, nextAddr := head.addr, head.addr;
      var todo := nodes.Keys;
      while todo != {}
        invariant todo <= nodes.Keys
        invariant forall a, n | Enabled(g, Absorb(a, n)) :: a in todo
      {
        addr := Pick(todo);
        todo := todo - {addr};
        var node := nodes[addr];
        var nexts := node.nexts;
        while nexts != {}
          invariant nexts <= node.nexts
          invariant forall n | Enabled(g, Absorb(addr, n)) :: n in nexts
        {
          nextAddr := Pick(nexts);
          nexts := nexts - {nextAddr};
          assert Edge(g, addr, nextAddr) && BackEdge(g, addr, nextAddr);
          var nextBlock := nodes[nextAddr];
          if |nextBlock.prevs| == 1 && forall t | t in tail :: nextAddr != t.addr {
            if nextBlock.lines <= node.lines {
              return true, addr, nextAddr;
            }
          }
        }
      }
      found := false;
    }

    /** A node with one successor, which has no other predecessor. */
    method FindOneToOneNodes() returns (found: bool, addr: Addr, nextAddr: Addr)
      requires Valid() && Linked(View())
      ensures found ==> Enabled(View(), Contract(addr, nextAddr))
      ensures !found ==> NoContract(View())
    {
      ghost var g := View();
      addr, nextAddr := head.addr, head.addr;
      var todo := nodes.Keys;
      while todo != {}
        invariant todo <= nodes.Keys
        invariant forall a, n | Enabled(g, Contract(a, n)) :: a in todo
      {
        addr := Pick(todo);
        todo := todo - {addr};
        var node := nodes[addr];
        if |node.nexts| != 1 {
          continue;
        }
        nextAddr := Pick(node.nexts);
        OnlyElement(node.nexts, nextAddr);
        assert Edge(g, addr, nextAddr) && BackEdge(g, addr, nextAddr);
        var nextBlock := nodes[nextAddr];
        if |nextBlock.prevs| != 1 {
          continue;
        }
        return true, addr, nextAddr;
      }
      found := false;
    }

    /** Whether all successors of a node are instrumented. */
    method AllNextsInstrumented(node: Node) returns (all: bool)
      requires node.nexts <= nodes.Keys
      ensures all <==> forall n | n in node.nexts :: nodes[n].instrumentedAddrs != {}
    {
      all := true;
      var nexts := node.nexts;
      while nexts != {}
        invariant nexts <= node.nexts && all
        invariant forall n | n in node.nexts - nexts :: nodes[n].instrumentedAddrs != {}
      {
        var nextAddr := Pick(nexts);
        nexts := nexts - {nextAddr};
        var nextBlock := nodes[nextAddr];
        if nextBlock.instrumentedAddrs == {} {
          return false;
        }
      }
    }

    /** An uninstrumented node, not the head, whose successors are all instrumented, and not none. */
    method FindUninstrumentedNode() returns (found: bool, addr: Addr)
      requires Valid() && Linked(View())
      ensures found ==> Enabled(View(), Bypass(addr))
      ensures !found ==> NoBypass(View())
    {
      ghost var g := View();
      addr := head.addr;
      var todo := nodes.Keys;
      while todo != {}
        invariant todo <= nodes.Keys
        invariant forall a | Enabled(g, Bypass(a)) :: a in todo
      {
        addr := Pick(todo);
        todo := todo - {addr};
        if addr == head.addr {
          continue;
        }
        var node := nodes[addr];
        if node.instrumentedAddrs != {} || |node.nexts| == 0 {
          continue;
        }
        forall n | n in node.nexts
          ensures n in nodes
        {
          assert Edge(g, addr, n) && BackEdge(g, addr, n);
        }
        var nextsAllInstrumented := AllNextsInstrumented(node);
        if !nextsAllInstrumented {
          continue;
        }
        return true, addr;
      }
      found := false;
    }

    /** Tries the first rule once. */
    method DeleteSingleEntryNode() returns (modified: bool)
      requires Valid() && WellFormed(View())
      modifies this, repr`addrs, repr`prevs, repr`nexts
      modifies repr`instrumentedAddrs, repr`lines
      ensures Valid()
      ensures !modified ==> View() == old(View()) && NoAbsorb(View())
      ensures modified ==> exists r: Rule :: r.Absorb? && Fires(old(View()), r, View())
    {
      var addr, nextAddr;
      modified, addr, nextAddr := FindSingleEntryNode();
      if modified {
        MergeNodes(addr, nextAddr, true);
        assert Fires(old(View()), Absorb(addr, nextAddr), View());
      }
    }

    /** Tries the second rule once. */
    method DeleteOneToOneNodes() returns (modified: bool)
      requires Valid() && WellFormed(View())
      modifies this, repr`addrs, repr`prevs, repr`nexts
      modifies repr`instrumentedAddrs, repr`lines
      ensures Valid()
      ensures !modified ==> View() == old(View()) && NoContract(View())
      ensures modified ==> exists r: Rule :: r.Contract? && Fires(old(View()), r, View())
    {
      var addr, nextAddr;
      modified, addr, nextAddr := FindOneToOneNodes();
      if modified {
        MergeNodes(addr, nextAddr, nodes[addr].instrumentedAddrs != {});
        assert Fires(old(View()), Contract(addr, nextAddr), View());
      }
    }

    /** Tries the third rule once. */
    method DeleteUninstrumentedNodesNextsInstrumented() returns (modified: bool)
      requires Valid() && WellFormed(View())
      modifies this, repr`addrs, repr`prevs, repr`nexts
      modifies repr`instrumentedAddrs, repr`lines
      ensures Valid()
      ensures !modified ==> View() == old(View()) && NoBypass(View())
      ensures modified ==> exists r: Rule :: r.Bypass? && Fires(old(View()), r, View())
    {
      var addr;
      modified, addr := FindUninstrumentedNode();
      if modified {
        SkipNode(addr);
        assert Fires(old(View()), Bypass(addr), View());
      }
    }

    /** The graph is a well-formed outcome of some rewrites of `start`. */
    ghost predicate InRun(start: Graph)
      reads this, repr
    {
      Valid() && WellFormed(View()) && Derives(start, View())
    }

    /** What follows every successful rule. */
    method CleanUp(ghost start: Graph, ghost g: Graph)
      requires Valid() && WellFormed(g) && Derives(start, g)
      requires exists r :: Fires(g, r, View())
      modifies repr`addrs, repr`prevs, repr`nexts
      modifies repr`instrumentedAddrs, repr`lines
      ensures InRun(start) && Smaller(View(), g)
    {
      ghost var r :| Fires(g, r, View());
      RemoveSelfLoops();
      FiredAndCleaned(start, g, r, View());
    }

    /** The first rule and its cleanup, as one step of a run. */
    method TryAbsorb(ghost start: Graph) returns (modified: bool)
      requires InRun(start)
      modifies this, repr`addrs, repr`prevs, repr`nexts
      modifies repr`instrumentedAddrs, repr`lines
      ensures InRun(start)
      ensures modified ==> Smaller(View(), old(View()))
      ensures !modified ==> View() == old(View()) && NoAbsorb(View())
    {
      ghost var g := View();
      modified := DeleteSingleEntryNode();
      if modified {
        CleanUp(start, g);
      }
    }

    /** The second rule and its cleanup, as one step of a run. */
    method TryContract(ghost start: Graph) returns (modified: bool)
      requires InRun(start)
      modifies this, repr`addrs, repr`prevs, repr`nexts
      modifies repr`instrumentedAddrs, repr`lines
      ensures InRun(start)
      ensures modified ==> Smaller(View(), old(View()))
      ensures !modified ==> View() == old(View()) && NoContract(View())
    {
      ghost var g := View();
      modified := DeleteOneToOneNodes();
      if modified {
        CleanUp(start, g);
      }
    }

    /** The third rule and its cleanup, as one step of a run. */
    method TryBypass(ghost start: Graph) returns (modified: bool)
      requires InRun(start)
      modifies this, repr`addrs, repr`prevs, repr`nexts
      modifies repr`instrumentedAddrs, repr`lines
      ensures InRun(start)
      ensures modified ==> Smaller(View(), old(View()))
      ensures !modified ==> View() == old(View()) && NoBypass(View())
    {
      ghost var g := View();
      modified := DeleteUninstrumentedNodesNextsInstrumented();
      if modified {
        CleanUp(start, g);
      }
    }

    /** Tries each of the three rules once. */
    method Round(ghost start: Graph) returns (modified: bool)
      requires InRun(start)
      modifies this, repr`addrs, repr`prevs, repr`nexts
      modifies repr`instrumentedAddrs, repr`lines
      ensures InRun(start)
      ensures modified ==> Smaller(View(), old(View()))
      ensures !modified ==> NormalForm(View())
    {
      modified := TryAbsorb(start);
      var done := TryContract(start);
      modified := modified || done;
      done := TryBypass(start);
      modified := modified || done;
    }

    /** Rewrites to the end.  No key error can occur on the way, each successful rule removes one
        node, and the loop ends when no rule applies anywhere. */
    method SimplifyCfg()
      requires Valid() && WellFormed(View())
      modifies this, repr`addrs, repr`prevs, repr`nexts
      modifies repr`instrumentedAddrs, repr`lines
      ensures Valid()
      ensures Derives(old(View()), View())
      ensures WellFormed(View()) && NormalForm(View())
    {
      ghost var start := View();
      DerivesSelf(start);
      while true
        invariant InRun(start)
        decreases |View().nodes|
      {
        var modified := Round(start);
        if !modified {
          break;
        }
      }
    }

    // ---------- Forward search ----------

    /** The objects are as `g` says, compared node by node. */
    ghost predicate Is(g: Graph)
      reads this, repr`addrs, repr`prevs, repr`nexts
      reads repr`instrumentedAddrs, repr`lines
    {
      && Valid() && g.head == head.addr && g.tail == TailAddrs() && g.nodes.Keys == nodes.Keys
      && (forall a {:trigger g.nodes[a]} | a in nodes :: nodes[a].AsBlock() == g.nodes[a])
    }

    /** The forward search from one node.  Its two sets are shared by all calls of one search. */
    method TraverseCfgHelperImpl(current: Node, visited: set<Addr>, instrumentedVisited: set<Addr>, ghost g: Graph)
      returns (visited': set<Addr>, instrumentedVisited': set<Addr>)
      requires Is(g) && Linked(g)
      requires current.addr in nodes && nodes[current.addr] == current
      requires visited <= g.nodes.Keys
      ensures visited + {current.addr} <= visited' && Explored(g, current.addr, visited, visited')
      ensures instrumentedVisited' == instrumentedVisited + Instrumented(g, visited' - visited)
      decreases |nodes.Keys - visited|, 0
    {
      visited', instrumentedVisited' := visited, instrumentedVisited;
      if current.addr in visited {
        return;
      }
      if current.instrumentedAddrs != {} {
        instrumentedVisited' := instrumentedVisited' + {current.addr};
      }
      visited' := visited' + {current.addr};
      StartExploring(g, current.addr, visited);
      assert visited' - visited == {current.addr};
      SubsetSize(nodes.Keys - visited', nodes.Keys - visited);
      visited', instrumentedVisited' := TraverseNexts(current, visited', instrumentedVisited', g, visited, instrumentedVisited);
    }

    /** Searches on from all successors of a node. */
    method TraverseNexts(current: Node, visited: set<Addr>, instrumentedVisited: set<Addr>, ghost g: Graph,
                         ghost start: set<Addr>, ghost startInstrumented: set<Addr>)
      returns (visited': set<Addr>, instrumentedVisited': set<Addr>)
      requires Is(g) && Linked(g) && current.addr in nodes && nodes[current.addr] == current && current.addr in visited
      requires ExploredBut(g, current.addr, start, visited, {})
      requires instrumentedVisited == startInstrumented + Instrumented(g, visited - start)
      ensures visited <= visited' && Explored(g, current.addr, start, visited')
      ensures instrumentedVisited' == startInstrumented + Instrumented(g, visited' - start)
      decreases |nodes.Keys - visited|, 2
    {
      visited', instrumentedVisited' := visited, instrumentedVisited;
      ghost var done: set<Addr> := {};
      var todo := current.nexts;
      while todo != {}
        invariant g.nodes[current.addr].nexts == done + todo && visited <= visited'
        invariant ExploredBut(g, current.addr, start, visited', done)
        invariant instrumentedVisited' == startInstrumented + Instrumented(g, visited' - start)
      {
        var nextAddr := Pick(todo);
        assert Edge(g, current.addr, nextAddr);
        SubsetSize(nodes.Keys - visited', nodes.Keys - visited);
        visited', instrumentedVisited' := TraverseNext(current, nextAddr, visited', instrumentedVisited', g,
                                                       start, startInstrumented, done);
        todo, done := todo - {nextAddr}, done + {nextAddr};
      }
    }

    /** Searches on from one successor, unless it has been visited. */
    method TraverseNext(current: Node, nextAddr: Addr, visited: set<Addr>, instrumentedVisited: set<Addr>, ghost g: Graph,
                        ghost start: set<Addr>, ghost startInstrumented: set<Addr>, ghost done: set<Addr>)
      returns (visited': set<Addr>, instrumentedVisited': set<Addr>)
      requires Is(g) && Linked(g) && Edge(g, current.addr, nextAddr) && current.addr in visited
      requires ExploredBut(g, current.addr, start, visited, done)
      requires instrumentedVisited == startInstrumented + Instrumented(g, visited - start)
      ensures visited <= visited' && ExploredBut(g, current.addr, start, visited', done + {nextAddr})
      ensures instrumentedVisited' == startInstrumented + Instrumented(g, visited' - start)
      decreases |nodes.Keys - visited|, 1
    {
      assert BackEdge(g, current.addr, nextAddr);
      visited', instrumentedVisited' := TraverseCfgHelperImpl(nodes[nextAddr], visited, instrumentedVisited, g);
      ExploredFurther(g, current.addr, nextAddr, start, visited, visited', done);
      assert visited' - start == (visited - start) + (visited' - visited);
    }

    /** One node learns which other instrumented nodes it can reach. */
    method TraverseCfgHelper(node: Node, ghost g: Graph)
      requires Is(g) && Linked(g)
      requires node.addr in nodes && nodes[node.addr] == node && node.instrumentedAddrs != {}
      modifies node`reachableInstrumentedAddrs
      ensures node.reachableInstrumentedAddrs ==
        old(node.reachableInstrumentedAddrs) + ForwardLabel(g, node.addr)
    {
      var visited, instrumentedVisited := TraverseCfgHelperImpl(node, {}, {}, g);
      ExploredIsReachable(g, node.addr, visited);
      instrumentedVisited := Remove(instrumentedVisited, node.addr);
      assert instrumentedVisited == ForwardLabel(g, node.addr);
      node.reachableInstrumentedAddrs := node.reachableInstrumentedAddrs + instrumentedVisited;
    }

    ghost function Labels(): Marks
      requires Keyed()
      reads this`nodes, repr`reachableInstrumentedAddrs
    {
      map a | a in nodes :: nodes[a].reachableInstrumentedAddrs
    }

    /** The same, if the node is instrumented. */
    method TraverseFrom(node: Node, ghost g: Graph)
      requires Is(g) && Linked(g) && node.addr in nodes && nodes[node.addr] == node
      modifies node`reachableInstrumentedAddrs
      ensures Is(g) && Labels() == AddLabel(old(Labels()), node.addr, ForwardLabel(g, node.addr))
    {
      ghost var target := AddLabel(Labels(), node.addr, ForwardLabel(g, node.addr));
      assert forall b | b in nodes && b != node.addr :: nodes[b] != node;
      if node.instrumentedAddrs != {} {
        TraverseCfgHelper(node, g);
      }
      assert forall b | b in nodes :: Labels()[b] == target[b];
      assert Labels() == target;
    }

    /** Every instrumented node learns exactly which others it can reach. */
    method TraverseCfg(ghost g: Graph)
      requires Is(g) && Linked(g) && forall a | a in nodes :: Labels()[a] == {}
      modifies repr`reachableInstrumentedAddrs
      ensures Is(g) && forall a | a in nodes :: nodes[a].reachableInstrumentedAddrs == ForwardLabel(g, a)
    {
      ghost var labels := Labels();
      var todo := nodes.Keys;
      while todo != {}
        invariant todo <= nodes.Keys && Is(g) && Labels() == labels
        invariant forall a {:trigger labels[a]} | a in labels :: labels[a] == if a in todo then {} else ForwardLabel(g, a)
      {
        var a := Pick(todo);
        todo := todo - {a};
        TraverseFrom(nodes[a], g);
        labels := AddLabel(labels, a, ForwardLabel(g, a));
      }
      forall a | a in nodes
        ensures nodes[a].reachableInstrumentedAddrs == ForwardLabel(g, a)
      {
        assert labels[a] == Labels()[a];
      }
    }

    // ---------- Backward search ----------

    ghost function BackMarks(): Marks
      requires Keyed()
      reads this`nodes, repr`addrsReachableWithoutAnyInstrumentation
    {
      map a | a in nodes :: nodes[a].addrsReachableWithoutAnyInstrumentation
    }

    ghost predicate Are(g: Graph, marks: Marks)
      reads this, repr`addrs, repr`prevs, repr`nexts
      reads repr`instrumentedAddrs, repr`lines
      reads repr`addrsReachableWithoutAnyInstrumentation
    {
      && Is(g) && nodes.Keys == marks.Keys
      && (forall a {:trigger marks[a]} | a in nodes :: nodes[a].addrsReachableWithoutAnyInstrumentation == marks[a])
    }

    /** An instrumented node adds to its label what has been visited so far. */
    method TakeOver(current: Node, visited: set<Addr>, ghost g: Graph, ghost marks: Marks)
      returns (ghost marks': Marks)
      requires current.addr in nodes && nodes[current.addr] == current
      requires Are(g, marks) && SearchState(g, visited, marks)
      requires current.instrumentedAddrs != {} && MayEnter(g, visited, current.addr)
      modifies current`addrsReachableWithoutAnyInstrumentation
      ensures Are(g, marks') && Searched(g, visited, marks, visited, marks')
      ensures visited <= marks'[current.addr]
    {
      MarksTaken(g, visited, marks, current.addr);
      assert forall b | b in nodes && b != current.addr :: nodes[b] != current;
      current.addrsReachableWithoutAnyInstrumentation := current.addrsReachableWithoutAnyInstrumentation + visited;
      marks' := marks[current.addr := marks[current.addr] + visited];
    }

    /** The backward search from one node.  One set of visited nodes is shared by all branches; an
        instrumented node stops the search and takes over what the set holds at that moment. */
    method ReverseTraverseCfgHelperImpl(current: Node, visited: set<Addr>, ghost g: Graph, ghost marks: Marks)
      returns (visited': set<Addr>, ghost marks': Marks)
      requires Linked(g)
      requires current.addr in nodes && nodes[current.addr] == current
      requires Are(g, marks) && SearchState(g, visited, marks)
      requires MayEnter(g, visited, current.addr)
      modifies repr`addrsReachableWithoutAnyInstrumentation
      ensures Are(g, marks') && Searched(g, visited, marks, visited', marks')
      ensures if current.instrumentedAddrs == {} then current.addr in visited' else visited <= marks'[current.addr]
      decreases |nodes.Keys - visited|, 0
    {
      visited', marks' := visited, marks;
      if current.addr in visited {
        QuietIsUninstrumented(g, visited, current.addr);
        NothingSearched(g, visited, marks);
        return;
      }
      if current.instrumentedAddrs != {} {
        marks' := TakeOver(current, visited, g, marks);
        return;
      }
      visited' := visited' + {current.addr};
      EnterQuiet(g, visited, current.addr);
      SubsetSize(nodes.Keys - visited', nodes.Keys - visited);
      visited', marks' := ReverseVisitPrevs(current, visited', g, marks);
      SearchedAll(g, visited, current.addr, marks, visited', marks');
    }

    /** Searches on from all predecessors of a node. */
    method ReverseVisitPrevs(current: Node, visited: set<Addr>, ghost g: Graph, ghost marks: Marks)
      returns (visited': set<Addr>, ghost marks': Marks)
      requires Linked(g)
      requires current.addr in nodes && nodes[current.addr] == current && current.addr in visited
      requires Are(g, marks) && SearchState(g, visited, marks)
      modifies repr`addrsReachableWithoutAnyInstrumentation
      ensures Are(g, marks') && Searched(g, visited, marks, visited', marks')
      ensures AllTold(g, current.addr, visited', marks')
      decreases |nodes.Keys - visited|, 2
    {
      ghost var told := {};
      visited', marks' := visited, marks;
      NothingSearched(g, visited, marks);
      var todo := current.prevs;
      while todo != {}
        invariant g.nodes[current.addr].prevs == told + todo
        invariant Are(g, marks') && Searched(g, visited, marks, visited', marks')
        invariant ToldSet(g, told, current.addr, visited', marks')
      {
        var prevAddr := Pick(todo);
        assert BackEdge(g, prevAddr, current.addr) && Edge(g, prevAddr, current.addr);
        SubsetSize(nodes.Keys - visited', nodes.Keys - visited);
        visited', marks' := ReverseVisitPrev(current, prevAddr, visited', g, visited, marks, marks', told);
        todo, told := todo - {prevAddr}, told + {prevAddr};
      }
      AllPrevsTold(g, current.addr, told, visited', marks');
    }

    /** Searches on from one predecessor. */
    method ReverseVisitPrev(current: Node, prevAddr: Addr, visited: set<Addr>, ghost g: Graph,
                            ghost start: set<Addr>, ghost startMarks: Marks, ghost marks: Marks, ghost told: set<Addr>)
      returns (visited': set<Addr>, ghost marks': Marks)
      requires Are(g, marks) && Linked(g)
      requires prevAddr in nodes && Edge(g, prevAddr, current.addr) && current.addr in visited
      requires Searched(g, start, startMarks, visited, marks) && ToldSet(g, told, current.addr, visited, marks)
      modifies repr`addrsReachableWithoutAnyInstrumentation
      ensures Are(g, marks') && Searched(g, start, startMarks, visited', marks')
      ensures ToldSet(g, told + {prevAddr}, current.addr, visited', marks')
      decreases |nodes.Keys - visited|, 1
    {
      visited', marks' := ReverseTraverseCfgHelperImpl(nodes[prevAddr], visited, g, marks);
      SearchedTwice(g, start, startMarks, visited, marks, visited', marks');
      ToldGrows(g, told, current.addr, visited, marks, visited', marks');
      ToldOneMore(g, told, prevAddr, current.addr, visited', marks');
    }

    /** One search, with a visited set of its own, from every tail. */
    method ReverseTraverseCfg(ghost g: Graph, ghost marks: Marks) returns (ghost marks': Marks)
      requires Are(g, marks) && Linked(g)
      requires forall a | a in marks :: marks[a] == {}
      modifies repr`addrsReachableWithoutAnyInstrumentation
      ensures Are(g, marks') && AllBackExact(g, marks')
    {
      marks' := marks;
      ghost var done: set<Addr> := {};
      NoTailsYet(g, marks);
      var todo := tail;
      while todo != {}
        invariant todo <= tail && Are(g, marks') && SearchedTails(g, done, marks, marks')
        invariant forall t | t in tail :: t in todo || t.addr in done
      {
        var t := Pick(todo);
        todo := todo - {t};
        ghost var before, visited := marks', {};
        visited, marks' := ReverseTraverseCfgHelperImpl(t, {}, g, marks');
        SearchedOneMoreTail(g, done, t.addr, marks, before, visited, marks');
        done := done + {t.addr};
      }
      AllTailsSearched(g, done, marks, marks');
    }

    // ---------- One function from start to end ----------

    ghost function ExtraLines(): map<Addr, set<LineInfo>>
      requires Keyed()
      reads this`nodes, repr`linesFromAddrsReachableWoInstrumentation
    {
      map a | a in nodes :: nodes[a].linesFromAddrsReachableWoInstrumentation
    }

    /** A node gets the lines of the nodes in its backward label, none of which is gone. */
    method CollectLinesOf(node: Node, ghost g: Graph, ghost marks: Marks)
      requires Are(g, marks) && node.addr in nodes && nodes[node.addr] == node
      requires marks[node.addr] <= g.nodes.Keys
      modifies node`linesFromAddrsReachableWoInstrumentation
      ensures node.linesFromAddrsReachableWoInstrumentation ==
        old(node.linesFromAddrsReachableWoInstrumentation) + LinesOf(g, marks[node.addr])
    {
      var todo := node.addrsReachableWithoutAnyInstrumentation;
      while todo != {}
        invariant todo <= marks[node.addr]
        invariant node.linesFromAddrsReachableWoInstrumentation ==
          old(node.linesFromAddrsReachableWoInstrumentation) + LinesOf(g, marks[node.addr] - todo)
      {
        var reachableAddr := Pick(todo);
        ghost var done := marks[node.addr] - todo;
        todo := todo - {reachableAddr};
        var reachableNode := nodes[reachableAddr];
        node.linesFromAddrsReachableWoInstrumentation :=
          node.linesFromAddrsReachableWoInstrumentation + reachableNode.lines;
        assert marks[node.addr] - todo == done + {reachableAddr};
        assert LinesOf(g, done + {reachableAddr}) == LinesOf(g, done) + g.nodes[reachableAddr].lines;
      }
      assert marks[node.addr] - todo == marks[node.addr];
    }

    /** The same, if the node is instrumented. */
    method CollectLinesFrom(node: Node, ghost g: Graph, ghost marks: Marks)
      requires Are(g, marks) && node.addr in nodes && nodes[node.addr] == node
      requires marks[node.addr] <= g.nodes.Keys && node.linesFromAddrsReachableWoInstrumentation == {}
      modifies node`linesFromAddrsReachableWoInstrumentation
      ensures Are(g, marks) && ExtraLines() == old(ExtraLines())[node.addr := QuietLines(g, marks, node.addr)]
    {
      ghost var target := ExtraLines()[node.addr := QuietLines(g, marks, node.addr)];
      assert forall b | b in nodes && b != node.addr :: nodes[b] != node;
      if node.instrumentedAddrs != {} {
        CollectLinesOf(node, g, marks);
      }
      assert forall b | b in nodes :: ExtraLines()[b] == target[b];
      assert ExtraLines() == target;
    }

    method CollectLines(ghost g: Graph, ghost marks: Marks)
      requires Are(g, marks) && MarksInside(g, marks) && forall a | a in nodes :: ExtraLines()[a] == {}
      modifies repr`linesFromAddrsReachableWoInstrumentation
      ensures Are(g, marks) && forall a | a in nodes :: ExtraLines()[a] == QuietLines(g, marks, a)
    {
      ghost var extra := ExtraLines();
      var todo := nodes.Keys;
      while todo != {}
        invariant todo <= nodes.Keys && Are(g, marks) && ExtraLines() == extra
        invariant forall a {:trigger extra[a]} | a in extra :: extra[a] == if a in todo then {} else QuietLines(g, marks, a)
      {
        var a := Pick(todo);
        todo := todo - {a};
        assert extra[a] == {};
        CollectLinesFrom(nodes[a], g, marks);
        extra := extra[a := QuietLines(g, marks, a)];
      }
    }

    ghost predicate Unlabelled()
      reads this, repr
    {
      forall n | n in repr ::
        && n.reachableInstrumentedAddrs == {} && n.addrsReachableWithoutAnyInstrumentation == {}
        && n.linesFromAddrsReachableWoInstrumentation == {} && !n.fallback
    }

    /** All three labels of all nodes are exact for the graph as it stands. */
    ghost predicate Labelled(g: Graph, marks: Marks)
      reads this, repr
    {
      && Are(g, marks) && AllBackExact(g, marks)
      && (forall a {:trigger ForwardLabel(g, a)} | a in nodes ::
           nodes[a].reachableInstrumentedAddrs == ForwardLabel(g, a))
      && (forall a {:trigger QuietLines(g, marks, a)} | a in nodes ::
           ExtraLines()[a] == QuietLines(g, marks, a))
    }

    /** Both searches, and the lines of what the backward one found. */
    method LabelNodes(ghost g: Graph) returns (ghost marks: Marks)
      requires Is(g) && Linked(g) && Unlabelled()
      modifies repr`reachableInstrumentedAddrs
      modifies repr`addrsReachableWithoutAnyInstrumentation
      modifies repr`linesFromAddrsReachableWoInstrumentation
      ensures Labelled(g, marks)
    {
      marks := ReverseTraverseCfg(g, BackMarks());
      ExactMarksInside(g, marks);
      TraverseCfg(g);
      CollectLines(g, marks);
    }

    /** Simplifies a function as it was disassembled. */
    method CleanAndSimplify()
      requires Valid() && Linked(View()) && Anchored(View())
      modifies this, repr`addrs, repr`prevs, repr`nexts, repr`instrumentedAddrs, repr`lines
      ensures Valid() && Derives(WithoutSelfLoops(old(View())), View())
      ensures WellFormed(View()) && NormalForm(View())
    {
      ghost var g := View();
      RemoveSelfLoops();
      LoopsGone(g);
      SimplifyCfg();
    }

    /** One function from start to end: the self loops go, the graph is simplified, and unless more
        than a thousand nodes are left the nodes get their labels. */
    method Analyse() returns (ok: bool, ghost g: Graph, ghost marks: Marks)
      requires Valid() && Linked(View()) && Anchored(View()) && Unlabelled()
      modifies this, repr`addrs, repr`prevs, repr`nexts, repr`instrumentedAddrs, repr`lines
      modifies repr`reachableInstrumentedAddrs, repr`addrsReachableWithoutAnyInstrumentation
      modifies repr`linesFromAddrsReachableWoInstrumentation
      ensures Is(g) && Derives(WithoutSelfLoops(old(View())), g)
      ensures WellFormed(g) && NormalForm(g)
      ensures ok <==> |g.nodes| <= MAX_NODES
      ensures ok ==> Labelled(g, marks)
    {
      CleanAndSimplify();
      g, marks := View(), map[];
      assert g.nodes.Keys == nodes.Keys;
      ok := |nodes.Keys| <= MAX_NODES;
      if ok {
        marks := LabelNodes(g);
      }
    }
  }
}
