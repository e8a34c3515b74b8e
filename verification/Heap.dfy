/** Allocation and release inside one kmalloc group (src/kmalloc.c), in place on memory. */
module Heap {
  import opened Memory
  import opened Ring
  import opened HeapLayout
  import opened HeapMemory
  import opened HeapSteps
  import opened HeapWrites
  import opened HeapGroups

  class Kmalloc {
    var mem: seq<Byte>
    /** GROUP_LIST */
    const head: nat
    /** The groups, in list order. */
    ghost var groups: seq<Group>
    /** Groups a cpu is setting up or tearing down, outside KMALLOC_LOCK. */
    ghost var spares: seq<Group>

    ghost predicate Valid()
      reads this
    {
      HeapValid(mem, head, groups, spares)
    }

    ghost function State(): HeapState
      reads this
    {
      HeapState(mem, head, groups, spares)
    }

    /** The lazy initialisation of GROUP_LIST. */
    constructor (m: seq<Byte>, list: nat)
      requires list + LINK <= |m| <= WORD
      ensures Valid() && head == list && groups == [] == spares && OnlyLink(m, mem, list)
    {
      mem := Init(m, list);
      head := list;
      groups := [];
      spares := [];
      new;
      assert Linked(mem, [head], 0);
    }

    /** find_node_in_group: the first FREE node in address order that is big enough, or NULL. */
    method FindNode(ghost g: Group, group: nat, size: nat) returns (node: nat, ghost i: nat)
      requires Rep(mem, g) && group == g.base
      ensures node == NULL <==> NoFit(g.blocks, size)
      ensures node != NULL ==> FirstFit(g.blocks, size, i) && node == g.First() + Span(g.blocks[..i])
    {
      StartOfList(mem, g, size);
      var ite: nat := Next(mem, group + FREE_HEAD_OFFSET);
      ghost var k := 1;
      while ite != group + FREE_HEAD_OFFSET
        invariant 1 <= k <= |g.FreeRing()| && ite == NodeOf(g, k) && SmallBefore(g, k, size)
        decreases |g.FreeRing()| - k
      {
        i := Probe(mem, g, k, size);
        if Size(mem, ite - HEADER_SIZE) >= size { return ite - HEADER_SIZE, i; }
        ite, k := Next(mem, ite), k + 1;
      }
      EndOfList(mem, g, k, size);
      node, i := NULL, 0;
    }

    /** Takes the whole node out of group->free and tags it, while it is still in the free list. */
    method Claim(ghost g: Group, ghost g1: Group, ghost a: seq<Block>, ghost x: Block, ghost b: seq<Block>,
      group: nat, node: nat)
      requires Rep(mem, g) && g.blocks == a + [x] + b && x.free && g1 == g.(blocks := a + [x.(free := false)] + b)
      requires group == g.base && node == g.First() + Span(a)
      modifies `mem
      ensures Body(mem, g1, FreeBytes(g.blocks) - x.size) && IsRing(mem, g.FreeRing()) && Safe(old(mem), mem, g)
    {
      NodeSize(mem, g, a, x, b);
      TakeCounter(mem, g, a, x, b);
      mem := SubFree(mem, group, Size(mem, node));
      TakeTag(mem, g, g1, FreeBytes(g.blocks) - x.size, a, x, b, node);
      mem := SetTag(mem, node, ALLOCATED);
    }

    /** The part of kmalloc_in_group that takes the node off the free list. */
    method TakeNode(ghost g: Group, ghost g1: Group, ghost a: seq<Block>, ghost x: Block, ghost b: seq<Block>,
      group: nat, node: nat)
      returns (prev: nat)
      requires Rep(mem, g) && g.blocks == a + [x] + b && x.free && g1 == g.(blocks := a + [x.(free := false)] + b)
      requires group == g.base && node == g.First() + Span(a)
      modifies `mem
      ensures Rep(mem, g1) && Safe(old(mem), mem, g) && Position(g, a) <= |g1.FreeRing()|
      ensures prev == g1.FreeRing()[Position(g, a) - 1]
    {
      TakeBytes(a, x, b);
      Claim(g, g1, a, x, b, group, node);
      prev := UnlinkTaken(g, g1, a, x, b, node);
    }

    /** list_del of a tagged node; prev is remembered for the node that may take its place. */
    method UnlinkTaken(ghost g: Group, ghost g1: Group, ghost a: seq<Block>, ghost x: Block, ghost b: seq<Block>,
      node: nat)
      returns (prev: nat)
      requires Body(mem, g1, FreeBytes(g1.blocks)) && IsRing(mem, g.FreeRing()) && g.Tiled() && g.blocks == a + [x] + b
      requires x.free
      requires g1 == g.(blocks := a + [x.(free := false)] + b) && node == g.First() + Span(a)
      modifies `mem
      ensures Rep(mem, g1) && Safe(old(mem), mem, g) && Position(g, a) <= |g1.FreeRing()|
      ensures prev == g1.FreeRing()[Position(g, a) - 1]
    {
      var n := node + HEADER_SIZE;
      TakeUnlink(mem, g, g1, FreeBytes(g1.blocks), a, x, b, n);
      prev := Prev(mem, n);
      mem := Del(mem, n);
    }

    /** Initialises a FREE node inside a taken one. */
    method NewFreeNode(ghost g: Group, ghost g1: Group, ghost a: seq<Block>, ghost x: Block, ghost b: seq<Block>,
      node: nat, size: nat)
      requires Rep(mem, g1) && g.Tiled() && x.free && g.blocks == a + [x] + b
      requires g1 == g.(blocks := a + [x.(free := false)] + b)
      requires MIN_SIZE <= size < WORD / 2
      requires g.First() + Span(a) + NODE_SIZE <= node
      requires node + HEADER_SIZE + size == g.First() + Span(a) + HEADER_SIZE + x.size
      modifies `mem
      ensures Rep(mem, g1) && Safe(old(mem), mem, g) && node + 4 <= |mem|
      ensures Read(mem, node) == Header(Block(size, true))
    {
      SplitPrepare(mem, g, g1, FreeBytes(g1.blocks), a, x, Block(size, true), b, node);
      mem := SetTag(mem, node, FREE);
      mem := SetSize(mem, node, size);
      mem := Init(mem, node + HEADER_SIZE);
    }

    /** Counts the new FREE node y and shrinks the taken node to z. */
    method ShrinkNode(ghost g: Group, ghost g2: Group, ghost a: seq<Block>, ghost x: Block, ghost z: Block,
      ghost y: Block, ghost b: seq<Block>,
                      group: nat, node: nat, rest: nat, size: nat)
      requires g.Tiled() && x.free && g.blocks == a + [x] + b && g2 == g.(blocks := a + [z, y] + b)
      requires IsCut(x.(free := false), z, y)
      requires Splitting(mem, g.First(), a, x.(free := false), z, y, b) && g2.Tiled() && Fields(mem, g2)
      requires Read(mem, g.base + FREE_OFFSET) == FreeBytes(a + [x.(free := false)] + b) && IsRing(mem, g2.FreeRing())
      requires group == g.base && node == g.First() + Span(a) && size == z.size && rest == node + HEADER_SIZE + size
      modifies `mem
      ensures Rep(mem, g2) && Safe(old(mem), mem, g)
    {
      CountNew(mem, g, g2, a, x, z, y, b, node, rest);
      mem := AddFree(mem, group, Size(mem, rest));
      // The ASSERT: the two nodes fill the old one.
      assert Size(mem, node) == size + HEADER_SIZE + Size(mem, rest);
      SplitResize(mem, g, g2, FreeBytes(g2.blocks), a, x, z, y, b, node, size);
      mem := SetSize(mem, node, size);
    }

    /** The part of kmalloc_in_group that turns the end of a taken node into a new FREE node. */
    method SplitNode(ghost g: Group, ghost g1: Group, ghost g2: Group, ghost a: seq<Block>, ghost x: Block,
      ghost z: Block, ghost y: Block,
                     ghost b: seq<Block>, group: nat, node: nat, prev: nat, size: nat)
      requires Rep(mem, g1) && g.Tiled() && x.free && g.blocks == a + [x] + b
      requires g1 == g.(blocks := a + [x.(free := false)] + b)
      requires g2 == g.(blocks := a + [z, y] + b) && IsCut(x.(free := false), z, y) && size == z.size
      requires group == g.base && node == g.First() + Span(a)
      requires Position(g, a) <= |g1.FreeRing()| && prev == g1.FreeRing()[Position(g, a) - 1]
      modifies `mem
      ensures Rep(mem, g2) && Safe(old(mem), mem, g)
    {
      var rest := node + HEADER_SIZE + size;
      NodeSize(mem, g1, a, x.(free := false), b);
      var left := Size(mem, node) - size - HEADER_SIZE;
      assert left == y.size && Block(left, true) == y;
      NewFreeNode(g, g1, a, x, b, rest, left);
      LinkNew(g, g1, g2, a, x, z, y, b, prev, rest);
      ShrinkNode(g, g2, a, x, z, y, b, group, node, rest, size);
    }

    /** list_add of the new FREE node. */
    method LinkNew(ghost g: Group, ghost g1: Group, ghost g2: Group, ghost a: seq<Block>, ghost x: Block,
      ghost z: Block, ghost y: Block,
                   ghost b: seq<Block>, prev: nat, rest: nat)
      requires Rep(mem, g1) && g.Tiled() && x.free && g.blocks == a + [x] + b
      requires g1 == g.(blocks := a + [x.(free := false)] + b)
      requires g2 == g.(blocks := a + [z, y] + b) && IsCut(x.(free := false), z, y)
      requires rest == g.First() + Span(a) + HEADER_SIZE + z.size && rest + 4 <= |mem| && Read(mem, rest) == Header(y)
      requires Position(g, a) <= |g1.FreeRing()| && prev == g1.FreeRing()[Position(g, a) - 1]
      modifies `mem
      ensures Splitting(mem, g.First(), a, x.(free := false), z, y, b) && g2.Tiled() && Fields(mem, g2)
      ensures Read(mem, g.base + FREE_OFFSET) == FreeBytes(g1.blocks) && IsRing(mem, g2.FreeRing())
      ensures Safe(old(mem), mem, g)
    {
      SplitAdd(mem, g, g1, g2, a, x, z, y, b, rest + HEADER_SIZE);
      mem := AddBetween(mem, prev, rest + HEADER_SIZE, Next(mem, prev));
    }

    /** kmalloc_in_group: first fit, splitting when a node fits in what is left, and zeroing. */
    method KmallocInGroup(ghost g: Group, group: nat, request: Word) returns (r: nat, ghost g': Group, ghost i: nat)
      requires Rep(mem, g) && g.Valid() && group == g.base
      modifies `mem
      ensures r == NULL <==> NoFit(g.blocks, Max(request, MIN_SIZE))
      ensures r == NULL ==> mem == old(mem) && g' == g
      ensures r != NULL ==>
        && FirstFit(g.blocks, Max(request, MIN_SIZE), i) && r == g.First() + Span(g.blocks[..i]) + HEADER_SIZE
        && g' == g.(blocks := g.blocks[..i] + Cut(g.blocks[i].size, Max(request, MIN_SIZE)) + g.blocks[i + 1..])
        && r + Max(request, MIN_SIZE) <= |mem| && forall b | r <= b < r + Max(request, MIN_SIZE) :: mem[b] == 0
      ensures Rep(mem, g') && g'.Valid() && Safe(old(mem), mem, g)
    {
      var size := Max(request, MIN_SIZE);
      EmptyList(mem, g, size);
      if Next(mem, group + FREE_HEAD_OFFSET) == group + FREE_HEAD_OFFSET { return NULL, g, 0; }
      var dest;
      dest, i := FindNode(g, group, size);
      if dest == NULL { return NULL, g, 0; }
      ghost var a, x, b := g.blocks[..i], g.blocks[i], g.blocks[i + 1..];
      Parts(g.blocks, i);
      g' := g.(blocks := a + Cut(x.size, size) + b);
      CutValid(g, g', a, x, b, size);
      r := HandOut(g, g', a, x, b, group, dest, size);
    }

    /** Takes the node, splits it when there is room, and zeroes what is handed out. */
    method HandOut(ghost g: Group, ghost g': Group, ghost a: seq<Block>, ghost x: Block, ghost b: seq<Block>,
      group: nat, dest: nat, size: nat)
      returns (r: nat)
      requires Rep(mem, g) && g.blocks == a + [x] + b && x.free && MIN_SIZE <= size <= x.size
      requires g' == g.(blocks := a + Cut(x.size, size) + b) && group == g.base && dest == g.First() + Span(a)
      modifies `mem
      ensures Rep(mem, g') && Safe(old(mem), mem, g) && r == dest + HEADER_SIZE
      ensures r + size <= |mem| && forall b | r <= b < r + size :: mem[b] == 0
    {
      AllocateNode(g, g', a, x, b, group, dest, size);
      r := dest + HEADER_SIZE;
      ZeroAllocated(mem, g, g', a, x, b, size, r);
      mem := Zeroed(mem, r, size);
    }

    /** Takes the node and, when there is room, splits it. */
    method AllocateNode(ghost g: Group, ghost g': Group, ghost a: seq<Block>, ghost x: Block, ghost b: seq<Block>,
      group: nat, dest: nat, size: nat)
      requires Rep(mem, g) && g.blocks == a + [x] + b && x.free && MIN_SIZE <= size <= x.size
      requires g' == g.(blocks := a + Cut(x.size, size) + b) && group == g.base && dest == g.First() + Span(a)
      modifies `mem
      ensures Rep(mem, g') && Safe(old(mem), mem, g)
    {
      ghost var g1 := g.(blocks := a + [x.(free := false)] + b);
      CutCases(a, x, b, size);
      var prev := TakeNode(g, g1, a, x, b, group, dest);
      NodeSize(mem, g1, a, x.(free := false), b);
      if Size(mem, dest) - size >= NODE_SIZE {
        SplitNode(g, g1, g', a, x, Block(size, false), Block(x.size - size - HEADER_SIZE, true), b, group, dest, prev,
          size);
      }
    }

    /** prev, which node no longer follows in the free list, grows over it. */
    method GrowNode(ghost g: Group, ghost g': Group, ghost a: seq<Block>, ghost p: Block, ghost x: Block,
      ghost b: seq<Block>,
                    group: nat, prev: nat, node: nat)
      requires Body(mem, g, FreeBytes(g.blocks)) && IsRing(mem, g'.FreeRing()) && g.blocks == a + [p, x] + b && p.free
      requires x.free
      requires g' == g.(blocks := a + [Block(p.size + x.size + HEADER_SIZE, true)] + b) && group == g.base
      requires prev == g.First() + Span(a) && node == prev + HEADER_SIZE + p.size
      requires Live(g.First(), g'.blocks) == Live(g.First(), g.blocks)
      modifies `mem
      ensures Rep(mem, g') && Safe(old(mem), mem, g)
    {
      JoinSizes(mem, g, FreeBytes(g.blocks), a, p, x, b, prev, node);
      var size := Size(mem, prev) + Size(mem, node) + HEADER_SIZE;
      JoinGrow(mem, g, g', a, p, x, b, prev, size);
      mem := SetSize(mem, prev, size);
      CountJoin(g, g', a, p, x, b, group);
    }

    /** The header that a merge gives back. */
    method CountJoin(ghost g: Group, ghost g': Group, ghost a: seq<Block>, ghost p: Block, ghost x: Block,
      ghost b: seq<Block>, group: nat)
      requires g.Tiled() && g.blocks == a + [p, x] + b && p.free && x.free && group == g.base
      requires g' == g.(blocks := a + [Block(p.size + x.size + HEADER_SIZE, true)] + b)
      requires Live(g.First(), g'.blocks) == Live(g.First(), g.blocks)
      requires Body(mem, g', FreeBytes(g.blocks)) && IsRing(mem, g'.FreeRing())
      modifies `mem
      ensures Rep(mem, g') && Safe(old(mem), mem, g)
    {
      JoinCounter(mem, g, g', a, p, x, b);
      SafeSameLive(mem, AddFree(mem, group, HEADER_SIZE), g, g');
      mem := AddFree(mem, group, HEADER_SIZE);
    }

    /** list_del of the second of two touching FREE nodes. */
    method UnlinkSecond(ghost g: Group, ghost g': Group, ghost a: seq<Block>, ghost p: Block, ghost x: Block,
      ghost b: seq<Block>, node: nat)
      requires Rep(mem, g) && g.blocks == a + [p, x] + b && p.free && x.free
      requires g' == g.(blocks := a + [Block(p.size + x.size + HEADER_SIZE, true)] + b)
      requires node == g.First() + Span(a) + HEADER_SIZE + p.size
      modifies `mem
      ensures Body(mem, g, FreeBytes(g.blocks)) && IsRing(mem, g'.FreeRing()) && Safe(old(mem), mem, g)
    {
      var n := node + HEADER_SIZE;
      JoinUnlink(mem, g, g', a, p, x, b, n);
      mem := Del(mem, n);
    }

    /** The merge step of merge_free_node: prev swallows node. */
    method JoinNodes(ghost g: Group, ghost g': Group, ghost a: seq<Block>, ghost p: Block, ghost x: Block,
      ghost b: seq<Block>,
                     group: nat, prev: nat, node: nat)
      requires Rep(mem, g) && g.blocks == a + [p, x] + b && p.free && x.free && group == g.base
      requires g' == g.(blocks := a + [Block(p.size + x.size + HEADER_SIZE, true)] + b)
      requires prev == g.First() + Span(a) && node == prev + HEADER_SIZE + p.size
      modifies `mem
      ensures Rep(mem, g') && Safe(old(mem), mem, g) && Live(g.First(), g'.blocks) == Live(g.First(), g.blocks)
    {
      JoinKeeps(g.First(), a, p, x, b);
      UnlinkSecond(g, g', a, p, x, b, node);
      GrowNode(g, g', a, p, x, b, group, prev, node);
    }

    /** The first half of merge_free_node: afterwards no FREE block touches the node on the side of lower addresses. */
    method MergeBefore(ghost g: Group, group: nat, node: nat, ghost i: nat)
      returns (cur: nat, ghost g': Group, ghost c: nat)
      requires Rep(mem, g) && group == g.base && i < |g.blocks| && g.blocks[i].free && Coalesced(g.blocks[..i])
      requires node == g.First() + Span(g.blocks[..i])
      modifies `mem
      ensures Rep(mem, g') && g' == g.(blocks := g'.blocks) && Live(g.First(), g'.blocks) == Live(g.First(), g.blocks)
      ensures Safe(old(mem), mem, g)
      ensures c < |g'.blocks| && g'.blocks[c].free && g'.blocks[c + 1..] == g.blocks[i + 1..]
      ensures Coalesced(g'.blocks[..c]) && (c > 0 ==> !g'.blocks[c - 1].free)
      ensures cur == g'.First() + Span(g'.blocks[..c])
    {
      cur, g', c := node, g, i;
      ghost var j := LookBack(mem, g, i, node);
      var prev := Prev(mem, node + HEADER_SIZE) - HEADER_SIZE;
      if node + HEADER_SIZE != Next(mem, group + FREE_HEAD_OFFSET) {
        if prev + Size(mem, prev) + HEADER_SIZE == node {
          ghost var a, p, x, b := g.blocks[..j], g.blocks[j], g.blocks[i], g.blocks[i + 1..];
          TouchingParts(g.blocks, i, j);
          g', c, cur := g.(blocks := a + [Block(p.size + x.size + HEADER_SIZE, true)] + b), j, prev;
          JoinNodes(g, g', a, p, x, b, group, prev, node);
          assert g'.blocks[..j] == a && g'.blocks[j + 1..] == b;
        }
      }
    }

    /** merge_free_node: from node to the end of the free list, every FREE node that touches the one before it joins
        it. */
    method MergeFreeNode(ghost g: Group, group: nat, node: nat, ghost i: nat) returns (ghost g': Group)
      requires Rep(mem, g) && group == g.base && i < |g.blocks| && g.blocks[i].free && Coalesced(g.blocks[..i])
      requires node == g.First() + Span(g.blocks[..i])
      modifies `mem
      ensures Rep(mem, g') && g'.Valid() && g' == g.(blocks := g'.blocks)
      ensures Live(g.First(), g'.blocks) == Live(g.First(), g.blocks) && Safe(old(mem), mem, g)
      decreases |Links(0, g.blocks[i + 1..])|, 1
    {
      var cur;
      ghost var g1, c;
      cur, g1, c := MergeBefore(g, group, node, i);
      ghost var before := mem;
      g' := MergeAfter(g1, group, cur, c);
      MergedTwice(old(mem), before, mem, g, g1, g');
    }

    /** Its second half: on to the next node of the list, if there is one. */
    method MergeAfter(ghost g: Group, group: nat, cur: nat, ghost c: nat) returns (ghost g': Group)
      requires Rep(mem, g) && group == g.base && c < |g.blocks| && g.blocks[c].free && Coalesced(g.blocks[..c])
      requires cur == g.First() + Span(g.blocks[..c]) && (c > 0 ==> !g.blocks[c - 1].free)
      modifies `mem
      ensures Rep(mem, g') && g'.Valid() && g' == g.(blocks := g'.blocks)
      ensures Live(g.First(), g'.blocks) == Live(g.First(), g.blocks) && Safe(old(mem), mem, g)
      decreases |Links(0, g.blocks[c + 1..])|, 0
    {
      ghost var j := LookAhead(mem, g, c, cur);
      g' := g;
      if cur + HEADER_SIZE != Prev(mem, group + FREE_HEAD_OFFSET) {
        g' := MergeFreeNode(g, group, Next(mem, cur + HEADER_SIZE) - HEADER_SIZE, j);
      }
    }

    /** The loop of insert_in_free_list: the first node of the list above node, or the list head. */
    method FindNext(ghost off: Group, ghost a: seq<Block>, ghost x: Block, ghost b: seq<Block>, group: nat, node: nat)
      returns (next: nat)
      requires BigEnough(off.blocks) && IsRing(mem, off.FreeRing()) && off.blocks == a + [x] + b && !x.free
      requires group == off.base && node == off.First() + Span(a)
      ensures Position(off, a) <= |off.FreeRing()| && next == off.FreeRing()[Succ(off.FreeRing(), Position(off, a) - 1)]
    {
      ghost var l := off.FreeRing();
      RingParts(off, a, x, b, Links(off.First(), a), node + HEADER_SIZE, Links(node + HEADER_SIZE + x.size, b));
      RingBounds(mem, l, 0);
      next := Next(mem, group + FREE_HEAD_OFFSET);
      ghost var k := 1;
      while next != group + FREE_HEAD_OFFSET
        invariant 1 <= k <= Position(off, a) && next == l[if k == |l| then 0 else k]
        decreases |l| - k
      {
        BeforeOrAfter(off, a, x, b, k);
        if next > node + HEADER_SIZE { return; }
        RingBounds(mem, l, k);
        next := Next(mem, next);
        k := k + 1;
      }
      HeadOnce(mem, l, k);
    }

    /** What insert_in_free_list does before merging. */
    method Release(ghost off: Group, ghost on: Group, ghost a: seq<Block>, ghost x: Block, ghost b: seq<Block>,
      group: nat, node: nat)
      requires Rep(mem, off) && off.blocks == a + [x] + b && !x.free && on == off.(blocks := a + [x.(free := true)] + b)
      requires group == off.base && node == off.First() + Span(a)
      modifies `mem
      ensures Rep(mem, on) && Safe(old(mem), mem, on)
    {
      Mark(off, on, a, x, b, group, node);
      var next := FindNext(off, a, x, b, group, node);
      ReleaseLink(mem, off, on, FreeBytes(on.blocks), a, x, b, node + HEADER_SIZE, next);
      mem := AddBetween(mem, Prev(mem, next), node + HEADER_SIZE, next);
    }

    /** Tags the node FREE and counts it. */
    method Mark(ghost off: Group, ghost on: Group, ghost a: seq<Block>, ghost x: Block, ghost b: seq<Block>,
      group: nat, node: nat)
      requires Rep(mem, off) && off.blocks == a + [x] + b && !x.free && on == off.(blocks := a + [x.(free := true)] + b)
      requires group == off.base && node == off.First() + Span(a)
      modifies `mem
      ensures Body(mem, on, FreeBytes(on.blocks)) && IsRing(mem, off.FreeRing()) && Safe(old(mem), mem, on)
    {
      ReleaseTag(mem, off, on, a, x, b, node);
      mem := SetTag(mem, node, FREE);
      MarkCount(mem, off, on, a, x, b);
      mem := AddFree(mem, group, Size(mem, node));
    }

    /** kfree_in_group. The address is the start of the data of block i; when that block is FREE, the ASSERT fails. */
    method KfreeInGroup(ghost g: Group, group: nat, addr: nat, ghost i: nat) returns (ok: bool, ghost g': Group)
      requires Rep(mem, g) && g.Valid() && group == g.base && i < |g.blocks|
      requires addr == g.First() + Span(g.blocks[..i]) + HEADER_SIZE
      modifies `mem
      ensures ok <==> !g.blocks[i].free
      ensures !ok ==> mem == old(mem) && g' == g
      ensures ok ==>
        && g' == g.(blocks := g'.blocks)
        && Live(g.First(), g'.blocks) == Live(g.First(), g.blocks[..i]) + Live(addr + g.blocks[i].size,
           g.blocks[i + 1..])
      ensures Rep(mem, g') && g'.Valid() && Safe(old(mem), mem, g')
    {
      ghost var a, x, b := g.blocks[..i], g.blocks[i], g.blocks[i + 1..];
      assert g.blocks == a + [x] + b;
      NodeSize(mem, g, a, x, b);
      var node := addr - HEADER_SIZE;
      ok, g' := Tag(mem, node) == ALLOCATED, g;
      if ok {
        ghost var on := g.(blocks := a + [x.(free := true)] + b);
        g' := InsertInFreeList(g, on, a, x, b, group, node);
        ReleasedLive(g, on, g', a, x, b, addr);
      }
    }

    /** insert_in_free_list. */
    method InsertInFreeList(ghost g: Group, ghost on: Group, ghost a: seq<Block>, ghost x: Block, ghost b: seq<Block>,
      group: nat, node: nat)
      returns (ghost g': Group)
      requires Rep(mem, g) && g.Valid() && g.blocks == a + [x] + b && !x.free
      requires on == g.(blocks := a + [x.(free := true)] + b)
      requires group == g.base && node == g.First() + Span(a)
      modifies `mem
      ensures Rep(mem, g') && g'.Valid() && g' == g.(blocks := g'.blocks) && Safe(old(mem), mem, g')
      ensures Live(on.First(), g'.blocks) == Live(on.First(), on.blocks)
    {
      ReleasedPrefix(g, on, a, x, b);
      Release(g, on, a, x, b, group, node);
      ghost var before := mem;
      g' := MergeFreeNode(on, group, node, |a|);
      SafeTwice(old(mem), before, mem, g', on);
    }

    /** create_group, once pages has been mapped: it writes only inside the group. */
    method CreateGroup(pages: nat, base: nat)
      requires 0 < pages && pages * PAGE_SIZE <= KERNEL_SIZE && base + pages * PAGE_SIZE <= |mem| <= WORD
      modifies `mem
      ensures Rep(mem, NewGroup(base, pages)) && NewGroup(base, pages).Valid()
      ensures OnlyIn(old(mem), mem, base, base + pages * PAGE_SIZE)
    {
      var size, node := pages * PAGE_SIZE - GROUP_SIZE - HEADER_SIZE, base + GROUP_SIZE;
      mem := Zeroed(mem, base, pages * PAGE_SIZE);
      InitNode(base, pages, node, size);
      InitFields(base, pages, size);
      NewGroupValid(base, pages);
      NewGroupRep(mem, base, pages);
      mem := AddBetween(mem, base + FREE_HEAD_OFFSET, node + HEADER_SIZE, Next(mem, base + FREE_HEAD_OFFSET));
    }

    method InitNode(base: nat, pages: nat, node: nat, size: nat)
      requires 0 < pages && pages * PAGE_SIZE <= KERNEL_SIZE && base + pages * PAGE_SIZE <= |mem| <= WORD
      requires size == pages * PAGE_SIZE - GROUP_SIZE - HEADER_SIZE && node == base + GROUP_SIZE
      modifies `mem
      ensures OnlyIn(old(mem), mem, base, base + pages * PAGE_SIZE) && Read(mem, node) == Header(Block(size, true))
    {
      mem := SetTag(mem, node, FREE);
      SetSizeIs(mem, node, Block(Read(mem, node) / 2, true), size);
      mem := SetSize(mem, node, size);
      mem := Init(mem, node + HEADER_SIZE);
    }

    method InitFields(base: nat, pages: nat, size: nat)
      requires 0 < pages && pages * PAGE_SIZE <= KERNEL_SIZE && base + pages * PAGE_SIZE <= |mem| <= WORD
      requires size == pages * PAGE_SIZE - GROUP_SIZE - HEADER_SIZE
      modifies `mem
      ensures OnlyIn(old(mem), mem, base, base + pages * PAGE_SIZE)
      ensures Read(mem, base + GROUP_SIZE) == old(Read(mem, base + GROUP_SIZE))
      ensures Read(mem, base) == size && Read(mem, base + 4) == pages && Read(mem, base + FREE_OFFSET) == size
      ensures Next(mem, base + FREE_HEAD_OFFSET) == base + FREE_HEAD_OFFSET == Prev(mem, base + FREE_HEAD_OFFSET)
    {
      mem := Write(mem, base, size);
      mem := Write(mem, base + 4, pages);
      mem := Write(mem, base + FREE_OFFSET, size);
      mem := Init(mem, base + GROUP_LIST_OFFSET);
      mem := Init(mem, base + FREE_HEAD_OFFSET);
    }

    // ---------- the list of groups ----------

    /** kmalloc_in_group on a group of the list. */
    method AllocateIn(ghost k: nat, group: nat, request: Word) returns (addr: nat, ghost i: nat)
      requires Valid() && k < |groups| && group == groups[k].base
      modifies `mem, `groups
      ensures Valid()
      ensures addr == NULL <==> NoFit(old(groups)[k].blocks, Max(request, MIN_SIZE))
      ensures addr == NULL ==> mem == old(mem) && groups == old(groups)
      ensures addr != NULL ==> Placed(old(mem), old(groups), mem, groups, k, i, addr, Max(request, MIN_SIZE))
    {
      ghost var g := groups[k];
      HeldGroup(mem, head, groups, spares, k);
      ghost var g';
      addr, g', i := KmallocInGroup(g, group, request);
      if addr != NULL {
        PlaceStep(old(mem), mem, head, groups, spares, k, i, Max(request, MIN_SIZE), addr, g');
        groups := groups[k := g'];
      }
    }

    /** The body of the loop of try_allocation. */
    method TryGroup(ghost k: nat, group: nat, request: Word) returns (addr: nat, ghost i: nat)
      requires Valid() && k < |groups| && group == groups[k].base
      modifies `mem, `groups
      ensures Valid()
      ensures addr == NULL <==> NoFit(old(groups)[k].blocks, Max(request, MIN_SIZE))
      ensures addr == NULL ==> mem == old(mem) && groups == old(groups)
      ensures addr != NULL ==> Placed(old(mem), old(groups), mem, groups, k, i, addr, Max(request, MIN_SIZE))
    {
      GroupFields(mem, head, groups, spares, k);
      if Read(mem, group + FREE_OFFSET) < request {
        TooFull(groups[k].blocks, Max(request, MIN_SIZE));
        return NULL, 0;
      }
      addr, i := AllocateIn(k, group, request);
    }

    /** try_allocation: the first group in list order that has a FREE node big enough. */
    method TryAllocation(request: Word) returns (addr: nat, ghost k: nat, ghost i: nat)
      requires Valid()
      modifies `mem, `groups
      ensures Valid() && forall own: nat :: Section(old(State()), State(), own)
      ensures addr == NULL <==> NoneFits(old(groups), |old(groups)|, Max(request, MIN_SIZE))
      ensures addr == NULL ==> mem == old(mem) && groups == old(groups)
      ensures addr != NULL ==>
        Placed(old(mem), old(groups), mem, groups, k, i, addr, Max(request, MIN_SIZE))
          && NoneFits(old(groups), k, Max(request, MIN_SIZE))
    {
      WalkStart(mem, head, groups, spares);
      var ite: nat := Next(mem, head);
      k, i := 0, 0;
      while ite != head
        invariant mem == old(mem) && groups == old(groups)
        invariant k <= |groups| && ite == NodeAt(head, groups, k)
        invariant NoneFits(groups, k, Max(request, MIN_SIZE))
        decreases |groups| - k
      {
        addr, i := TryGroup(k, ite - GROUP_LIST_OFFSET, request);
        assert Unfit(old(groups), Max(request, MIN_SIZE), k) <==> addr == NULL;
        if addr != NULL {
          PlacedIsOne(old(mem), old(groups), mem, groups, k, i, addr, Max(request, MIN_SIZE));
          return;
        }
        WalkNext(mem, head, groups, spares, k);
        ite := Next(mem, ite);
        k := k + 1;
      }
      WalkEnd(mem, head, groups, spares, k);
      UnchangedIsOne(mem, head, groups, spares);
      addr := NULL;
    }

    /** create_group as do_kmalloc calls it, outside the lock: base is where the pages were mapped. */
    method CreateSpare(base: nat, pages: nat)
      requires Valid() && 0 < pages && pages * PAGE_SIZE <= KERNEL_SIZE && base + pages * PAGE_SIZE <= |mem|
      requires Unused(head, groups, spares, base, base + pages * PAGE_SIZE)
      modifies `mem, `spares
      ensures Valid() && spares == old(spares) + [NewGroup(base, pages)]
      ensures forall own: nat :: Section(old(State()), State(), own)
      ensures OnlyIn(old(mem), mem, base, base + pages * PAGE_SIZE)
    {
      CreateGroup(pages, base);
      NewGroupValid(base, pages);
      CreateStep(old(mem), mem, head, groups, spares, NewGroup(base, pages));
      CreatedIsOne(old(mem), mem, head, groups, spares, base, base + pages * PAGE_SIZE);
      spares := spares + [NewGroup(base, pages)];
    }

    /** The end of do_kmalloc, with the lock held again and the new group in hand: NULL when the last ASSERT fails. */
    method FinishKmalloc(ghost s: nat, group: nat, request: Word) returns (addr: nat, listed: bool, ghost len: nat)
      requires Valid() && s < |spares| && NewPages(request) > 0 && group == spares[s].base
      requires spares[s] == NewGroup(group, NewPages(request))
      modifies `mem, `groups, `spares
      ensures Valid() && Section(old(State()), State(), group)
      ensures listed <==> NoneFits(old(groups), |old(groups)|, Max(request, MIN_SIZE))
      ensures spares == if listed then Without(old(spares), s) else old(spares)
      ensures addr == NULL <==> listed && old(spares)[s].Capacity() < Max(request, MIN_SIZE)
      ensures addr != NULL ==> Granted(old(mem), old(groups), mem, groups, Extent(addr, len), Max(request, MIN_SIZE))
    {
      ghost var k, i;
      addr, k, i := TryAllocation(request);
      listed, len := addr == NULL, 0;
      if addr != NULL {
        PlacedGranted(old(mem), old(groups), mem, groups, k, i, addr, Max(request, MIN_SIZE));
        len := Cut(old(groups)[k].blocks[i].size, Max(request, MIN_SIZE))[0].size;
      } else {
        addr, len := AllocateListed(s, group, request);
        WithoutKeeps(old(spares), s);
        if addr != NULL {
          GrantedIsOne(old(mem), old(groups), mem, groups, Extent(addr, len), Max(request, MIN_SIZE));
        }
      }
    }

    /** Adds the new group to the list and allocates in it. */
    method AllocateListed(ghost s: nat, group: nat, request: Word) returns (addr: nat, ghost len: nat)
      requires Valid() && s < |spares| && NewPages(request) > 0 && group == spares[s].base
      requires spares[s] == NewGroup(group, NewPages(request))
      modifies `mem, `groups, `spares
      ensures Valid() && spares == Without(old(spares), s) && |mem| == |old(mem)|
      ensures addr == NULL <==> old(spares)[s].Capacity() < Max(request, MIN_SIZE)
      ensures addr == NULL ==> OneExtent(old(mem), old(groups), mem, groups)
      ensures addr != NULL ==> Granted(old(mem), old(groups), mem, groups, Extent(addr, len), Max(request, MIN_SIZE))
    {
      ghost var g, gs := spares[s], groups;
      HeldSpare(mem, head, groups, spares, s);
      Enlist(s, group);
      ghost var m1 := mem;
      EnlistedIsOne(old(mem), mem, head, gs, old(spares), g);
      NewGroupFit(request, group);
      ghost var i;
      addr, i := AllocateIn(|gs|, group, request);
      len := 0;
      if addr != NULL {
        PlacedGranted(m1, gs + [g], mem, groups, |gs|, i, addr, Max(request, MIN_SIZE));
        len := Cut(g.blocks[i].size, Max(request, MIN_SIZE))[0].size;
        GrantedAfterEnlist(old(mem), m1, mem, head, gs, old(spares), g, groups, Extent(addr, len),
          Max(request, MIN_SIZE));
      }
    }

    /** list_add_tail of the new group. */
    method Enlist(ghost s: nat, group: nat)
      requires Valid() && s < |spares| && group == spares[s].base
      modifies `mem, `groups, `spares
      ensures Valid() && groups == old(groups) + [old(spares)[s]] && spares == Without(old(spares), s)
      ensures OnlyList(old(mem), mem, head, old(groups) + old(spares))
    {
      EnlistStep(mem, head, groups, spares, s, group + GROUP_LIST_OFFSET);
      mem := AddBetween(mem, Prev(mem, head), group + GROUP_LIST_OFFSET, head);
      groups, spares := groups + [spares[s]], Without(spares, s);
    }

    /** free_group: the ASSERT holds, and the group's memory is given back. */
    method FreeSpare(ghost s: nat, group: nat) returns (empty: bool)
      requires Valid() && s < |spares| && group == spares[s].base
      modifies `spares
      ensures Valid() && empty && spares == Without(old(spares), s) && Section(old(State()), State(), group)
      ensures mem == old(mem) && groups == old(groups)
    {
      WithoutKeeps(spares, s);
      HeldSpare(mem, head, groups, spares, s);
      GroupEmptyIff(mem, spares[s]);
      empty := Read(mem, group) == Read(mem, group + FREE_OFFSET);
      DropStep(mem, head, groups, spares, s);
      UnchangedIsOne(mem, head, groups, spares);
      spares := Without(spares, s);
    }

    /** kfree_in_group on a group of the list. */
    method ReleaseIn(ghost k: nat, group: nat, addr: nat, ghost i: nat) returns (ok: bool)
      requires Valid() && k < |groups| && group == groups[k].base
      requires i < |groups[k].blocks| && addr == groups[k].First() + Span(groups[k].blocks[..i]) + HEADER_SIZE
      modifies `mem, `groups
      ensures Valid() && |groups| == |old(groups)| && groups[k].base == group
      ensures ok <==> !old(groups)[k].blocks[i].free
      ensures !ok ==> mem == old(mem) && groups == old(groups)
      ensures ok ==> Revoked(old(mem), old(groups), mem, groups, Extent(addr, old(groups)[k].blocks[i].size))
    {
      ghost var g := groups[k];
      HeldGroup(mem, head, groups, spares, k);
      ghost var g';
      ok, g' := KfreeInGroup(g, group, addr, i);
      if ok {
        RevokeStep(old(mem), mem, head, groups, spares, k, i, addr, g, g');
        groups := groups[k := g'];
      }
    }

    /** The end of do_kfree: a group without live allocations leaves the list. */
    method Reclaim(ghost k: nat, group: nat) returns (removed: bool)
      requires Valid() && k < |groups| && group == groups[k].base
      modifies `mem, `groups, `spares
      ensures Valid() && (removed <==> Live(old(groups)[k].First(), old(groups)[k].blocks) == [])
      ensures !removed ==> mem == old(mem) && groups == old(groups) && spares == old(spares)
      ensures removed ==> groups == Without(old(groups), k) && spares == old(spares) + [old(groups)[k]]
      ensures Extents(groups) == Extents(old(groups)) && OnlyList(old(mem), mem, head, old(groups) + old(spares))
    {
      HeldGroup(mem, head, groups, spares, k);
      GroupEmptyIff(mem, groups[k]);
      removed := Read(mem, group) == Read(mem, group + FREE_OFFSET);
      if removed { Delist(k, group); }
    }

    /** list_del of an empty group. */
    method Delist(ghost k: nat, group: nat)
      requires Valid() && k < |groups| && group == groups[k].base && Live(groups[k].First(), groups[k].blocks) == []
      modifies `mem, `groups, `spares
      ensures Valid() && groups == Without(old(groups), k) && spares == old(spares) + [old(groups)[k]]
      ensures Extents(groups) == Extents(old(groups)) && OnlyList(old(mem), mem, head, old(groups) + old(spares))
    {
      DelistStep(mem, head, groups, spares, k, group + GROUP_LIST_OFFSET);
      EmptyGroupDropped(groups, k);
      mem := Del(mem, group + GROUP_LIST_OFFSET);
      groups, spares := Without(groups, k), spares + [groups[k]];
    }

    /** The loop of do_kfree. */
    method FindGroup(ghost k: nat, addr: nat) returns (found: bool, group: nat)
      requires Valid() && Holds(groups, k, addr)
      ensures found <==> k < |groups|
      ensures found ==> group == groups[k].base
    {
      WalkStart(mem, head, groups, spares);
      var ite: nat := Next(mem, head);
      ghost var n := 0;
      while ite != head
        invariant n <= k && ite == NodeAt(head, groups, n)
        decreases k - n
      {
        var stop, next := CheckGroup(k, n, ite, addr);
        if stop { return true, ite - GROUP_LIST_OFFSET; }
        ite, n := next, n + 1;
      }
      WalkEnd(mem, head, groups, spares, n);
      found, group := false, NULL;
    }

    /** The body of that loop. */
    method CheckGroup(ghost k: nat, ghost n: nat, ite: nat, addr: nat) returns (stop: bool, next: nat)
      requires Valid() && Holds(groups, k, addr) && n <= k && ite == NodeAt(head, groups, n) && ite != head
      ensures stop <==> n == k
      ensures n < |groups| && ite == groups[n].base + GROUP_LIST_OFFSET
      ensures !stop ==> next == NodeAt(head, groups, n + 1)
    {
      Visit(mem, head, groups, spares, k, n, addr);
      stop, next := AddrInGroup(mem, ite - GROUP_LIST_OFFSET, addr), Next(mem, ite);
    }

    /** do_kfree: addr is the start of the data of block i of group k, or in no group. It panics on an address in no
        group and on a block that is FREE already; otherwise it returns the group's memory only if nothing in it is
        live. */
    method DoKfree(ghost k: nat, ghost i: nat, addr: nat) returns (ok: bool, removed: bool)
      requires Valid() && Holds(groups, k, addr)
      requires k < |groups| ==>
        i < |groups[k].blocks| && addr == groups[k].First() + Span(groups[k].blocks[..i]) + HEADER_SIZE
      modifies `mem, `groups, `spares
      ensures Valid()
      ensures ok <==> k < |old(groups)| && !old(groups)[k].blocks[i].free
      ensures !ok ==> mem == old(mem) && groups == old(groups) && spares == old(spares) && !removed
      ensures ok ==> Revoked(old(mem), old(groups), mem, groups, Extent(addr, old(groups)[k].blocks[i].size))
      ensures ok ==> |groups| == |old(groups)| - (if removed then 1 else 0)
      ensures old(spares) <= spares && |spares| == |old(spares)| + (if removed then 1 else 0)
      ensures forall own: nat :: Section(old(State()), State(), own)
      ensures ok && !removed ==> Live(groups[k].First(), groups[k].blocks) != []
    {
      var found, group := FindGroup(k, addr);
      UnchangedIsOne(mem, head, groups, spares);
      if !found { return false, false; }
      ok := ReleaseIn(k, group, addr, i);
      removed := false;
      if ok {
        ghost var m1, groups1 := mem, groups;
        removed := Reclaim(k, group);
        RevokedAfterDelist(old(mem), m1, mem, head, old(groups), groups1, old(spares), groups,
          Extent(addr, old(groups)[k].blocks[i].size));
        RevokedIsOne(old(mem), old(groups), mem, groups, Extent(addr, old(groups)[k].blocks[i].size));
      }
    }

    /** do_kmalloc when no other cpu takes the lock meanwhile. The new pages, if any can be mapped, are at base. */
    method DoKmalloc(request: Word, mapped: bool, base: nat) returns (addr: nat, panics: bool, ghost len: nat)
      requires Valid()
      requires mapped ==>
        && 0 < NewPages(request) && NewPages(request) * PAGE_SIZE <= KERNEL_SIZE
        && base + NewPages(request) * PAGE_SIZE <= |mem|
        && Unused(head, groups, spares, base, base + NewPages(request) * PAGE_SIZE)
      modifies `mem, `groups, `spares
      ensures Valid() && spares == old(spares)
      ensures addr == NULL && !panics <==> NoneFits(old(groups), |old(groups)|, Max(request, MIN_SIZE)) && !mapped
      ensures panics <==>
        && NoneFits(old(groups), |old(groups)|, Max(request, MIN_SIZE)) && mapped
        && NewPages(request) * PAGE_SIZE - GROUP_SIZE - HEADER_SIZE < Max(request, MIN_SIZE)
      ensures addr != NULL ==> Granted(old(mem), old(groups), mem, groups, Extent(addr, len), Max(request, MIN_SIZE))
    {
      ghost var k, i;
      addr, k, i := TryAllocation(request);
      panics, len := false, 0;
      if addr != NULL {
        PlacedGranted(old(mem), old(groups), mem, groups, k, i, addr, Max(request, MIN_SIZE));
        len := Cut(old(groups)[k].blocks[i].size, Max(request, MIN_SIZE))[0].size;
      } else if mapped {
        addr, panics, len := Grow(request, base);
      }
    }

    /** The second half of do_kmalloc. */
    method Grow(request: Word, base: nat) returns (addr: nat, panics: bool, ghost len: nat)
      requires Valid() && 0 < NewPages(request) && NewPages(request) * PAGE_SIZE <= KERNEL_SIZE
      requires base + NewPages(request) * PAGE_SIZE <= |mem|
      requires Unused(head, groups, spares, base, base + NewPages(request) * PAGE_SIZE)
      requires NoneFits(groups, |groups|, Max(request, MIN_SIZE))
      modifies `mem, `groups, `spares
      ensures Valid() && spares == old(spares) && (panics <==> addr == NULL)
      ensures panics <==> NewPages(request) * PAGE_SIZE - GROUP_SIZE - HEADER_SIZE < Max(request, MIN_SIZE)
      ensures addr != NULL ==> Granted(old(mem), old(groups), mem, groups, Extent(addr, len), Max(request, MIN_SIZE))
    {
      CreateSpare(base, NewPages(request));
      ghost var m1 := mem;
      var listed;
      addr, listed, len := FinishKmalloc(|spares| - 1, base, request);
      assert Without(old(spares) + [NewGroup(base, NewPages(request))], |old(spares)|) == old(spares);
      panics := addr == NULL;
      GrantedAfterCreate(old(mem), m1, mem, head, old(groups), old(spares), base,
        base + NewPages(request) * PAGE_SIZE, groups, Extent(addr, len),
                         Max(request, MIN_SIZE), addr != NULL);
    }

    /** do_kmalloc with the other cpus, up to the point where it may drop the lock for the last time. While it has
        dropped the lock to create a group, they execute any number of sections, of which `others` is the outcome. h1
        is the heap when the lock is taken again. `held` are allocations that none of them frees. The new group is
        still to be freed when spare is true; FreeShared does that. */
    method DoKmallocShared(request: Word, mapped: bool, base: nat, others: seq<Byte> -> seq<Byte>,
                           ghost path: HeapState -> seq<HeapState>, ghost held: set<Extent>)
      returns (addr: nat, panics: bool, spare: bool, ghost len: nat, ghost h1: HeapState)
      requires Valid() && held <= Extents(groups)
      requires mapped ==>
        && 0 < NewPages(request) && NewPages(request) * PAGE_SIZE <= KERNEL_SIZE
        && base + NewPages(request) * PAGE_SIZE <= |mem|
        && Unused(head, groups, spares, base, base + NewPages(request) * PAGE_SIZE)
        && Environment(others, path, base, held, head, groups, spares + [NewGroup(base, NewPages(request))])
      modifies `mem, `groups, `spares
      ensures Valid() && h1.Sound()
      ensures addr == NULL && !panics <==> NoneFits(old(groups), |old(groups)|, Max(request, MIN_SIZE)) && !mapped
      ensures panics <==>
        && NoneFits(old(groups), |old(groups)|, Max(request, MIN_SIZE)) && mapped
        && NoneFits(h1.groups, |h1.groups|, Max(request, MIN_SIZE))
        && NewPages(request) * PAGE_SIZE - GROUP_SIZE - HEADER_SIZE < Max(request, MIN_SIZE)
      ensures addr != NULL ==> Granted(h1.mem, h1.groups, mem, groups, Extent(addr, len), Max(request, MIN_SIZE))
      ensures StillHeld(held, old(mem), h1.mem, h1.groups) && (addr != NULL ==> StillHeld(held, old(mem), mem, groups))
      ensures spare <==>
        && NoneFits(old(groups), |old(groups)|, Max(request, MIN_SIZE)) && mapped
        && !NoneFits(h1.groups, |h1.groups|, Max(request, MIN_SIZE))
      ensures spare ==> NewGroup(base, NewPages(request)) in spares
    {
      ghost var k, i;
      h1 := State();
      UnchangedIsOne(mem, head, groups, spares);
      SectionHolds(mem, groups, mem, groups, held);
      addr, k, i := TryAllocation(request);
      panics, spare, len := false, false, 0;
      if addr != NULL {
        PlacedGranted(old(mem), old(groups), mem, groups, k, i, addr, Max(request, MIN_SIZE));
        len := Cut(old(groups)[k].blocks[i].size, Max(request, MIN_SIZE))[0].size;
        GrantedHolds(old(mem), old(mem), old(groups), mem, groups, Extent(addr, len), Max(request, MIN_SIZE), held);
      } else if mapped {
        CreateAndWait(base, NewPages(request), others, path, held);
        h1 := State();
        addr, spare, len := FinishShared(request, base);
        panics := addr == NULL;
        if addr != NULL {
          GrantedHolds(old(mem), h1.mem, h1.groups, mem, groups, Extent(addr, len), Max(request, MIN_SIZE), held);
        }
      }
    }

    /** The rest of do_kmalloc when the new group was not needed: without the lock, the other cpus execute any number of
        sections and the group is freed. What was allocated before is still there. */
    method FreeShared(base: nat, others: seq<Byte> -> seq<Byte>, ghost path: HeapState -> seq<HeapState>,
                      ghost held: set<Extent>, ghost g: Group)
      requires Valid() && g in spares && g.base == base && Environment(others, path, base, held, head, groups, spares)
      modifies `mem, `groups, `spares
      ensures Valid() && StillHeld(held, old(mem), mem, groups) && forall x | x in spares :: x.base != base
    {
      Others(others, path, held, g);
      ghost var s :| 0 <= s < |spares| && spares[s] == g;
      SpareOnce(mem, head, groups, spares, s);
      var empty := FreeSpare(s, base);
    }

    /** The part without the lock. */
    method CreateAndWait(base: nat, pages: nat, others: seq<Byte> -> seq<Byte>, ghost path: HeapState -> seq<HeapState>,
                         ghost held: set<Extent>)
      requires Valid() && 0 < pages && pages * PAGE_SIZE <= KERNEL_SIZE && base + pages * PAGE_SIZE <= |mem|
      requires Unused(head, groups, spares, base, base + pages * PAGE_SIZE) && held <= Extents(groups)
      requires Environment(others, path, base, held, head, groups, spares + [NewGroup(base, pages)])
      modifies `mem, `groups, `spares
      ensures Valid() && NewGroup(base, pages) in spares && StillHeld(held, old(mem), mem, groups)
    {
      CreateSpare(base, pages);
      assert Section(old(State()), State(), base);
      SectionHolds(old(mem), groups, mem, groups, held);
      ghost var before := mem;
      Others(others, path, held, NewGroup(base, pages));
      HeldTwice(held, old(mem), before, old(groups), mem, groups);
    }

    /** The other cpus execute their sections; the group g and the allocations `held` are left alone. */
    method Others(others: seq<Byte> -> seq<Byte>, ghost path: HeapState -> seq<HeapState>, ghost held: set<Extent>,
                  ghost g: Group)
      requires Valid() && g in spares && Environment(others, path, g.base, held, head, groups, spares)
      modifies `mem, `groups, `spares
      ensures Valid() && g in spares && StillHeld(held, old(mem), mem, groups)
    {
      ghost var hs := path(State());
      InterferenceKeeps(hs, g.base, g, held, |hs| - 1);
      ghost var h := hs[|hs| - 1];
      mem := others(mem);
      groups, spares := h.groups, h.spares;
    }

    /** What do_kmalloc does with the group it created, wherever the others left the heap. */
    method FinishShared(request: Word, base: nat) returns (addr: nat, spare: bool, ghost len: nat)
      requires Valid() && NewPages(request) > 0 && NewGroup(base, NewPages(request)) in spares
      modifies `mem, `groups, `spares
      ensures Valid()
      ensures addr == NULL <==>
        && NoneFits(old(groups), |old(groups)|, Max(request, MIN_SIZE))
        && NewPages(request) * PAGE_SIZE - GROUP_SIZE - HEADER_SIZE < Max(request, MIN_SIZE)
      ensures addr != NULL ==> Granted(old(mem), old(groups), mem, groups, Extent(addr, len), Max(request, MIN_SIZE))
      ensures spare <==> !NoneFits(old(groups), |old(groups)|, Max(request, MIN_SIZE))
      ensures spare ==> NewGroup(base, NewPages(request)) in spares
    {
      ghost var s :| 0 <= s < |spares| && spares[s] == NewGroup(base, NewPages(request));
      var listed;
      addr, listed, len := FinishKmalloc(s, base, request);
      spare := !listed;
    }
  }
}
