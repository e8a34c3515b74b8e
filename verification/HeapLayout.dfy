/**
 The nodes of a kmalloc group (src/kmalloc.c) as a sequence of blocks in address
 order: where they lie, which are in the free list, which are allocated, and what
 allocating, freeing and merging do to them.
 */
module HeapLayout {
  const HEADER_SIZE: nat := 4
  /** sizeof(struct node) - HEADER_SIZE: room for a list_node. */
  const MIN_SIZE: nat := 8
  /** sizeof(struct node) */
  const NODE_SIZE: nat := 12

  datatype Block = Block(size: nat, free: bool)

  /** The bytes the blocks take, headers included. */
  function Span(bs: seq<Block>): nat {
    if bs == [] then 0 else HEADER_SIZE + bs[0].size + Span(bs[1..])
  }

  /** What group->free counts. */
  function FreeBytes(bs: seq<Block>): nat {
    if bs == [] then 0 else (if bs[0].free then bs[0].size else 0) + FreeBytes(bs[1..])
  }

  /** The addresses of the list_nodes of the FREE blocks, when the first block is at address at. */
  function Links(at: nat, bs: seq<Block>): seq<nat>
    decreases |bs|
  {
    if bs == [] then []
    else (if bs[0].free then [at + HEADER_SIZE] else []) + Links(at + HEADER_SIZE + bs[0].size, bs[1..])
  }

  /** A run of data bytes. */
  datatype Extent = Extent(start: nat, len: nat)

  /** The data of the ALLOCATED blocks. */
  function Live(at: nat, bs: seq<Block>): seq<Extent>
    decreases |bs|
  {
    if bs == [] then []
    else (if bs[0].free then [] else [Extent(at + HEADER_SIZE, bs[0].size)]) + Live(at + HEADER_SIZE + bs[0].size,
      bs[1..])
  }

  predicate BigEnough(bs: seq<Block>) {
    forall i | 0 <= i < |bs| :: bs[i].size >= MIN_SIZE
  }

  /** No two FREE blocks touch. */
  predicate Coalesced(bs: seq<Block>) {
    forall i | 0 <= i < |bs| - 1 :: bs[i].free ==> !bs[i + 1].free
  }

  // ---------- operations ----------

  /** What an allocated FREE block of size was becomes when size bytes are taken. */
  function Cut(was: nat, size: nat): seq<Block>
    requires size <= was
  {
    if was - size >= NODE_SIZE then [Block(size, false), Block(was - size - HEADER_SIZE, true)] else [Block(was, false)]
  }

  // ---------- concatenation ----------

  lemma {:induction false} SumsConcat(a: seq<Block>, b: seq<Block>)
    ensures Span(a + b) == Span(a) + Span(b)
    ensures FreeBytes(a + b) == FreeBytes(a) + FreeBytes(b)
  {
    if a == [] {
      assert a + b == b;
    } else {
      assert (a + b)[1..] == a[1..] + b;
      SumsConcat(a[1..], b);
    }
  }

  lemma {:induction false} LinksConcat(at: nat, a: seq<Block>, b: seq<Block>)
    ensures Links(at, a + b) == Links(at, a) + Links(at + Span(a), b)
    decreases |a|
  {
    if a == [] {
      assert a + b == b;
    } else {
      assert (a + b)[1..] == a[1..] + b;
      LinksConcat(at + HEADER_SIZE + a[0].size, a[1..], b);
    }
  }

  lemma {:induction false} LiveConcat(at: nat, a: seq<Block>, b: seq<Block>)
    ensures Live(at, a + b) == Live(at, a) + Live(at + Span(a), b)
    decreases |a|
  {
    if a == [] {
      assert a + b == b;
    } else {
      assert (a + b)[1..] == a[1..] + b;
      LiveConcat(at + HEADER_SIZE + a[0].size, a[1..], b);
    }
  }

  lemma Single(at: nat, x: Block)
    ensures Span([x]) == HEADER_SIZE + x.size && FreeBytes([x]) == (if x.free then x.size else 0)
    ensures Links(at, [x]) == if x.free then [at + HEADER_SIZE] else []
    ensures Live(at, [x]) == if x.free then [] else [Extent(at + HEADER_SIZE, x.size)]
  {
    assert [x][1..] == [];
  }

  /** The same around one block. */
  lemma AroundSums(at: nat, a: seq<Block>, x: Block, b: seq<Block>)
    ensures Span(a + [x] + b) == Span(a) + HEADER_SIZE + x.size + Span(b)
    ensures Span(a + [x]) == Span(a) + HEADER_SIZE + x.size
    ensures FreeBytes(a + [x] + b) == FreeBytes(a) + (if x.free then x.size else 0) + FreeBytes(b)
  {
    Single(at, x);
    SumsConcat(a + [x], b);
    SumsConcat(a, [x]);
  }

  lemma AroundLinks(at: nat, a: seq<Block>, x: Block, b: seq<Block>, n: nat)
    requires n == at + Span(a) && Span(a + [x]) == Span(a) + HEADER_SIZE + x.size
    ensures Links(at, a + [x] + b) ==
      Links(at, a) + (if x.free then [n + HEADER_SIZE] else []) + Links(n + HEADER_SIZE + x.size, b)
  {
    Single(n, x);
    LinksConcat(at, a + [x], b);
    LinksConcat(at, a, [x]);
  }

  lemma AroundLive(at: nat, a: seq<Block>, x: Block, b: seq<Block>, n: nat)
    requires n == at + Span(a) && Span(a + [x]) == Span(a) + HEADER_SIZE + x.size
    ensures Live(at, a + [x] + b) ==
      Live(at, a) + (if x.free then [] else [Extent(n + HEADER_SIZE, x.size)]) + Live(n + HEADER_SIZE + x.size, b)
  {
    Single(n, x);
    LiveConcat(at, a + [x], b);
    LiveConcat(at, a, [x]);
  }

  lemma Around(at: nat, a: seq<Block>, x: Block, b: seq<Block>)
    ensures Span(a + [x] + b) == Span(a) + HEADER_SIZE + x.size + Span(b)
    ensures FreeBytes(a + [x] + b) == FreeBytes(a) + (if x.free then x.size else 0) + FreeBytes(b)
    ensures var n := at + Span(a);
      && Links(at, a + [x] + b) ==
         Links(at, a) + (if x.free then [n + HEADER_SIZE] else []) + Links(n + HEADER_SIZE + x.size, b)
      && Live(at, a + [x] + b) ==
         Live(at, a) + (if x.free then [] else [Extent(n + HEADER_SIZE, x.size)]) + Live(n + HEADER_SIZE + x.size, b)
  {
    AroundSums(at, a, x, b);
    AroundLinks(at, a, x, b, at + Span(a));
    AroundLive(at, a, x, b, at + Span(a));
  }

  /** And around two. */
  lemma AroundTwo(at: nat, a: seq<Block>, x: Block, y: Block, b: seq<Block>)
    ensures Span(a + [x, y] + b) == Span(a) + 2 * HEADER_SIZE + x.size + y.size + Span(b)
    ensures FreeBytes(a + [x, y] + b) == FreeBytes(a) + (if x.free then x.size else 0) + (if y.free then y.size
      else 0) + FreeBytes(b)
    ensures var n := at + Span(a);
      var n' := n + HEADER_SIZE + x.size;
      && Links(at, a + [x, y] + b) == Links(at, a) + (if x.free then [n + HEADER_SIZE] else []) + (if y.free
         then [n' + HEADER_SIZE] else []) + Links(n' + HEADER_SIZE + y.size, b)
      && Live(at, a + [x, y] + b) == Live(at, a) + (if x.free then []
         else [Extent(n + HEADER_SIZE, x.size)]) + (if y.free then []
           else [Extent(n' + HEADER_SIZE, y.size)]) + Live(n' + HEADER_SIZE + y.size, b)
  {
    assert a + [x, y] + b == (a + [x]) + [y] + b && a + [x] + [] == a + [x];
    Around(at, a + [x], y, b);
    Around(at, a, x, []);
  }

  // ---------- where things lie ----------

  lemma {:induction false} LinksWithin(at: nat, bs: seq<Block>, l: nat)
    requires BigEnough(bs) && l in Links(at, bs)
    ensures at + HEADER_SIZE <= l && l + MIN_SIZE <= at + Span(bs)
    decreases |bs|
  {
    var rest := at + HEADER_SIZE + bs[0].size;
    if l in Links(rest, bs[1..]) { LinksWithin(rest, bs[1..], l); }
  }

  /** The free list is in strictly increasing address order, and its list_nodes do not overlap. */
  lemma {:induction false} LinksSorted(at: nat, bs: seq<Block>, i: nat, j: nat)
    requires BigEnough(bs) && i < j < |Links(at, bs)|
    ensures Links(at, bs)[i] + NODE_SIZE <= Links(at, bs)[j]
    decreases |bs|
  {
    var rest := at + HEADER_SIZE + bs[0].size;
    if bs[0].free {
      if i == 0 { LinksWithin(rest, bs[1..], Links(at, bs)[j]); } else { LinksSorted(rest, bs[1..], i - 1, j - 1); }
    } else {
      LinksSorted(rest, bs[1..], i, j);
    }
  }

  lemma {:induction false} LiveWithin(at: nat, bs: seq<Block>, k: nat)
    requires k < |Live(at, bs)|
    ensures at + HEADER_SIZE <= Live(at, bs)[k].start && Live(at, bs)[k].start + Live(at, bs)[k].len <= at + Span(bs)
    ensures BigEnough(bs) ==> Live(at, bs)[k].len >= MIN_SIZE
    decreases |bs|
  {
    var rest := at + HEADER_SIZE + bs[0].size;
    if !bs[0].free {
      if k > 0 { LiveWithin(rest, bs[1..], k - 1); }
    } else {
      LiveWithin(rest, bs[1..], k);
    }
  }

  /** Live allocations are pairwise disjoint, with room for a header between them. */
  lemma {:induction false} LiveDisjoint(at: nat, bs: seq<Block>, i: nat, j: nat)
    requires i < j < |Live(at, bs)|
    ensures Live(at, bs)[i].start + Live(at, bs)[i].len + HEADER_SIZE <= Live(at, bs)[j].start
    decreases |bs|
  {
    var rest := at + HEADER_SIZE + bs[0].size;
    if !bs[0].free {
      if i == 0 { LiveWithin(rest, bs[1..], j - 1); } else { LiveDisjoint(rest, bs[1..], i - 1, j - 1); }
    } else {
      LiveDisjoint(rest, bs[1..], i, j);
    }
  }

  /** Address b is a data byte of a live allocation. */
  ghost predicate IsLive(at: nat, bs: seq<Block>, b: nat) {
    exists k :: 0 <= k < |Live(at, bs)| && Live(at, bs)[k].start <= b < Live(at, bs)[k].start + Live(at, bs)[k].len
  }

  /** The list_node of a FREE block holds no live byte. */
  lemma {:induction false} LinkNotLive(at: nat, bs: seq<Block>, k: nat, l: nat)
    requires BigEnough(bs) && k < |Live(at, bs)| && l in Links(at, bs)
    ensures var e := Live(at, bs)[k]; e.start + e.len <= l || l + MIN_SIZE <= e.start
    decreases |bs|
  {
    var rest := at + HEADER_SIZE + bs[0].size;
    if bs[0].free {
      LiveWithin(rest, bs[1..], k);
      if l in Links(rest, bs[1..]) { LinkNotLive(rest, bs[1..], k, l); }
    } else {
      LinksWithin(rest, bs[1..], l);
      if k > 0 { LinkNotLive(rest, bs[1..], k - 1, l); }
    }
  }

  // ---------- counting ----------

  function LiveBytes(bs: seq<Block>): nat {
    if bs == [] then 0 else (if bs[0].free then 0 else bs[0].size) + LiveBytes(bs[1..])
  }

  /** Every byte of the group is a header, free or live: nothing is lost. */
  lemma {:induction false} Conservation(bs: seq<Block>)
    ensures Span(bs) == HEADER_SIZE * |bs| + FreeBytes(bs) + LiveBytes(bs)
  {
    if bs != [] { Conservation(bs[1..]); }
  }

  lemma {:induction false} LiveBytesPositive(at: nat, bs: seq<Block>)
    requires BigEnough(bs)
    ensures LiveBytes(bs) == 0 <==> Live(at, bs) == []
    ensures Live(at, bs) == [] <==> forall i | 0 <= i < |bs| :: bs[i].free
    decreases |bs|
  {
    if bs != [] {
      LiveBytesPositive(at + HEADER_SIZE + bs[0].size, bs[1..]);
      assert forall i | 0 < i < |bs| :: bs[i] == bs[1..][i - 1];
    }
  }

  /** group->free reaches group->size exactly when one FREE block is left. */
  lemma EmptyIff(at: nat, bs: seq<Block>)
    requires BigEnough(bs) && bs != []
    ensures FreeBytes(bs) == Span(bs) - HEADER_SIZE <==> (|bs| == 1 && bs[0].free)
    ensures Coalesced(bs) ==> (FreeBytes(bs) == Span(bs) - HEADER_SIZE <==> Live(at, bs) == [])
  {
    Conservation(bs);
    LiveBytesPositive(at, bs);
    if |bs| > 1 { assert bs[0].free ==> bs[1] == bs[0 + 1]; }
  }

  // ---------- the neighbours of a free block ----------

  /** The FREE block before the end of a, if the free list of a is not empty. */
  lemma {:induction false} LastFree(at: nat, a: seq<Block>) returns (j: nat)
    requires Links(at, a) != []
    ensures j < |a| && a[j].free && (forall k | j < k < |a| :: !a[k].free)
    ensures Links(at, a) == Links(at, a[..j]) + [at + Span(a[..j]) + HEADER_SIZE]
    decreases |a|
  {
    var init, last := a[..|a| - 1], a[|a| - 1];
    assert a == init + [last] && init + [last] + [] == a;
    Around(at, init, last, []);
    if last.free {
      j := |a| - 1;
    } else {
      j := LastFree(at, init);
      assert init[..j] == a[..j];
    }
  }

  /** The first FREE block of b, if its free list is not empty. */
  lemma {:induction false} FirstFree(at: nat, b: seq<Block>) returns (j: nat)
    requires Links(at, b) != []
    ensures j < |b| && b[j].free && (forall k | 0 <= k < j :: !b[k].free)
    ensures Links(at, b[..j]) == [] && Links(at, b)[0] == at + Span(b[..j]) + HEADER_SIZE
    decreases |b|
  {
    if b[0].free {
      j := 0;
    } else {
      var i := FirstFree(at + HEADER_SIZE + b[0].size, b[1..]);
      j := i + 1;
      assert b[..j] == [b[0]] + b[1..][..i] && b[..j][1..] == b[1..][..i];
    }
  }

  lemma {:induction false} NoLinksNoFree(at: nat, bs: seq<Block>)
    ensures Links(at, bs) == [] <==> forall i | 0 <= i < |bs| :: !bs[i].free
    decreases |bs|
  {
    if bs != [] {
      NoLinksNoFree(at + HEADER_SIZE + bs[0].size, bs[1..]);
      assert forall i | 0 < i < |bs| :: bs[i] == bs[1..][i - 1];
    }
  }

  // ---------- what the operations do to the invariants ----------

  lemma CutCoalesced(a: seq<Block>, x: Block, b: seq<Block>, size: nat)
    requires x.free && size <= x.size && Coalesced(a + [x] + b)
    ensures Coalesced(a + Cut(x.size, size) + b)
  {
    var bs, bs', split := a + [x] + b, a + Cut(x.size, size) + b, x.size - size >= NODE_SIZE;
    forall i | 0 <= i < |bs'| - 1 && bs'[i].free ensures !bs'[i + 1].free {
      if i < |a| {
        assert bs'[i] == bs[i] && (i + 1 < |a| ==> bs'[i + 1] == bs[i + 1]);
      } else {
        var j := if split then i - 1 else i;
        assert i > |a| && bs[j].free && bs'[i + 1] == bs[j + 1];
      }
    }
  }

  lemma CutBig(a: seq<Block>, x: Block, b: seq<Block>, size: nat)
    requires MIN_SIZE <= size <= x.size && BigEnough(a + [x] + b)
    ensures BigEnough(a + Cut(x.size, size) + b)
  {
    var bs, bs', split := a + [x] + b, a + Cut(x.size, size) + b, x.size - size >= NODE_SIZE;
    forall i | 0 <= i < |bs'| ensures bs'[i].size >= MIN_SIZE {
      if i < |a| {
        assert bs'[i] == bs[i];
      } else if i >= |a| + |Cut(x.size, size)| {
        assert bs'[i] == bs[if split then i - 1 else i];
      }
    }
  }

  /** Cutting an allocation out of a FREE block adds exactly its extent to the live ones. */
  lemma CutKeeps(at: nat, a: seq<Block>, x: Block, b: seq<Block>, size: nat)
    requires x.free && size <= x.size
    ensures var bs, bs', n := a + [x] + b, a + Cut(x.size, size) + b, at + Span(a);
      && Span(bs') == Span(bs)
      && Live(at, bs') == Live(at,
         a) + [Extent(n + HEADER_SIZE, Cut(x.size, size)[0].size)] + Live(n + HEADER_SIZE + x.size, b)
      && Live(at, bs) == Live(at, a) + Live(n + HEADER_SIZE + x.size, b)
  {
    Around(at, a, x, b);
    assert Live(at, a) + [] == Live(at, a);
    if x.size - size >= NODE_SIZE {
      CutInTwo(at, a, Block(size, false), Block(x.size - size - HEADER_SIZE, true), b);
    } else {
      Around(at, a, Block(x.size, false), b);
    }
  }

  lemma CutInTwo(at: nat, a: seq<Block>, z: Block, y: Block, b: seq<Block>)
    requires !z.free && y.free
    ensures var bs, n := a + [z, y] + b, at + Span(a);
      && Span(bs) == Span(a) + HEADER_SIZE + (z.size + HEADER_SIZE + y.size) + Span(b)
      && Live(at, bs) == Live(at,
         a) + [Extent(n + HEADER_SIZE, z.size)] + Live(n + HEADER_SIZE + (z.size + HEADER_SIZE + y.size), b)
  {
    AroundTwo(at, a, z, y, b);
    var n := at + Span(a);
    assert n + HEADER_SIZE + (z.size + HEADER_SIZE + y.size) == n + HEADER_SIZE + z.size + HEADER_SIZE + y.size;
    var l := Live(at, a) + [Extent(n + HEADER_SIZE, z.size)];
    assert l + [] == l;
  }

  /** Joining two FREE blocks that touch. */
  lemma JoinKeeps(at: nat, a: seq<Block>, p: Block, x: Block, b: seq<Block>)
    requires p.free && x.free && BigEnough(a + [p, x] + b)
    ensures var bs, bs' := a + [p, x] + b, a + [Block(p.size + x.size + HEADER_SIZE, true)] + b;
      && BigEnough(bs') && Span(bs') == Span(bs) && Live(at, bs') == Live(at, bs)
      && FreeBytes(bs') == FreeBytes(bs) + HEADER_SIZE
  {
    var bs, y := a + [p, x] + b, Block(p.size + x.size + HEADER_SIZE, true);
    var bs' := a + [y] + b;
    AroundTwo(at, a, p, x, b);
    Around(at, a, y, b);
    forall i | 0 <= i < |bs'| ensures bs'[i].size >= MIN_SIZE {
      assert i < |a| ==> bs[i] == bs'[i];
      assert i == |a| ==> bs[i] == p;
      assert i > |a| ==> bs[i + 1] == bs'[i];
    }
  }

  /** Freeing a block drops exactly its extent from the live ones. */
  lemma ReleaseKeeps(at: nat, a: seq<Block>, x: Block, b: seq<Block>)
    requires !x.free && BigEnough(a + [x] + b)
    ensures var bs, bs', n := a + [x] + b, a + [x.(free := true)] + b, at + Span(a);
      && BigEnough(bs') && Span(bs') == Span(bs)
      && FreeBytes(bs') == FreeBytes(bs) + x.size
      && Live(at, bs) == Live(at, a) + [Extent(n + HEADER_SIZE, x.size)] + Live(n + HEADER_SIZE + x.size, b)
      && Live(at, bs') == Live(at, a) + Live(n + HEADER_SIZE + x.size, b)
  {
    Around(at, a, x, b);
    Around(at, a, x.(free := true), b);
    var bs, bs' := a + [x] + b, a + [x.(free := true)] + b;
    assert forall i | 0 <= i < |bs'| :: bs'[i].size == bs[i].size;
  }

  // ---------- positions in the free list ----------

  /** The FREE block at position k of the free list. */
  lemma {:induction false} BlockAt(at: nat, bs: seq<Block>, k: nat) returns (i: nat)
    requires k < |Links(at, bs)|
    ensures i < |bs| && bs[i].free && |Links(at, bs[..i])| == k && Links(at, bs)[k] == at + Span(bs[..i]) + HEADER_SIZE
    decreases |bs|
  {
    var rest := at + HEADER_SIZE + bs[0].size;
    if bs[0].free && k == 0 {
      i := 0;
    } else {
      var j := BlockAt(rest, bs[1..], if bs[0].free then k - 1 else k);
      i := j + 1;
      assert bs[..i] == [bs[0]] + bs[1..][..j] && bs[..i][1..] == bs[1..][..j];
    }
  }

  /** Positions follow addresses. */
  lemma PositionsGrow(at: nat, bs: seq<Block>, i: nat, j: nat)
    requires i < j <= |bs| && bs[i].free
    ensures |Links(at, bs[..i])| < |Links(at, bs[..j])|
  {
    assert bs[..j] == bs[..i] + [bs[i]] + bs[i + 1..j];
    Around(at, bs[..i], bs[i], bs[i + 1..j]);
  }

  // ---------- merging ----------

  /** A prefix stays coalesced through a FREE block that touches no FREE one before it, and allocated ones after it. */
  lemma CoalescedThrough(a: seq<Block>, x: Block, b: seq<Block>)
    requires Coalesced(a) && (a != [] ==> !a[|a| - 1].free) && forall i | 0 <= i < |b| :: !b[i].free
    ensures Coalesced(a + [x] + b)
  {
    var bs := a + [x] + b;
    assert forall i | |a| < i < |bs| :: bs[i] == b[i - |a| - 1];
    forall i | 0 <= i < |bs| - 1 && bs[i].free ensures !bs[i + 1].free {
      if i < |a| { assert bs[i] == a[i] && i + 1 < |a| && bs[i + 1] == a[i + 1]; }
    }
  }

  /** Two nodes of the free list touch exactly when nothing lies between them. */
  lemma TouchIff(a: seq<Block>, j: nat)
    requires j < |a|
    ensures Span(a[..j]) + HEADER_SIZE + a[j].size == Span(a) <==> j + 1 == |a|
  {
    assert a == a[..j] + [a[j]] + a[j + 1..];
    Around(0, a[..j], a[j], a[j + 1..]);
    assert a[j + 1..] != [] ==> Span(a[j + 1..]) > 0;
  }

  lemma CoalescedPrefix(a: seq<Block>, j: nat)
    requires Coalesced(a) && j <= |a|
    ensures Coalesced(a[..j]) && (0 < j < |a| && a[j].free ==> !a[j - 1].free)
  {
    var c := a[..j];
    forall i | 0 <= i < |c| - 1 && c[i].free ensures !c[i + 1].free { assert a[i].free; }
    assert 0 < j < |a| && a[j - 1].free ==> !a[j - 1 + 1].free;
  }
}
