/**
 How a kmalloc group lies in memory (src/kmalloc.c): the struct group, the node
 headers and the free list, and what the writes of each operation do to them.
 */
module HeapMemory {
  import opened Memory
  import opened Ring
  import opened HeapLayout

  const PAGE_SIZE: nat := 4096
  /** sizeof(struct group): size, num_pages, free, group_list, free_head */
  const GROUP_SIZE: nat := 28
  const FREE_OFFSET: nat := 8
  const GROUP_LIST_OFFSET: nat := 12
  const FREE_HEAD_OFFSET: nat := 20
  /** Groups live in the kernel's gigabyte. */
  const KERNEL_SIZE: nat := 0x4000_0000

  datatype Group = Group(base: nat, pages: nat, blocks: seq<Block>)
  {
    function First(): nat { base + GROUP_SIZE }

    function End(): nat { base + pages * PAGE_SIZE }

    /** group->size */
    function Capacity(): int { pages * PAGE_SIZE - GROUP_SIZE - HEADER_SIZE }

    function Head(): nat { base + FREE_HEAD_OFFSET }

    function FreeRing(): seq<nat> { [Head()] + Links(First(), blocks) }

    /** The blocks tile the group exactly and each has room for a list_node. */
    predicate Tiled() {
      && pages > 0 && pages * PAGE_SIZE <= KERNEL_SIZE && End() <= WORD
      && BigEnough(blocks) && First() + Span(blocks) == End()
    }

    predicate Valid() { Tiled() && Coalesced(blocks) }

    /** The address is outside the group, or in its group_list node, or in a live allocation. */
    ghost predicate Kept(b: nat) {
      b < base || End() <= b || base + GROUP_LIST_OFFSET <= b < base + FREE_HEAD_OFFSET || IsLive(First(), blocks, b)
    }
  }

  function Header(b: Block): nat { 2 * b.size + if b.free then 0 else 1 }

  /** The header of every block is in memory. */
  ghost predicate Headers(m: seq<Byte>, at: nat, bs: seq<Block>)
    decreases |bs|
  {
    bs == [] || (at + 4 <= |m| && Read(m, at) == Header(bs[0]) && Headers(m, at + HEADER_SIZE + bs[0].size, bs[1..]))
  }

  ghost predicate Fields(m: seq<Byte>, g: Group) {
    g.End() <= |m| <= WORD && g.base + GROUP_SIZE <= |m|
    && Read(m, g.base) == g.Capacity() && Read(m, g.base + 4) == g.pages
  }

  /** Memory holds the group. */
  ghost predicate Rep(m: seq<Byte>, g: Group) {
    && g.Tiled() && Fields(m, g) && Read(m, g.base + FREE_OFFSET) == FreeBytes(g.blocks)
    && Headers(m, g.First(), g.blocks)
    && IsRing(m, g.FreeRing())
  }

  /** No kept byte changes. */
  ghost predicate Safe(m: seq<Byte>, m': seq<Byte>, g: Group) {
    |m'| == |m| && forall b {:trigger m'[b]} | 0 <= b < |m| && g.Kept(b) :: m'[b] == m[b]
  }

  // ---------- the accessors of struct node and struct group ----------

  function Tag(m: seq<Byte>, n: nat): nat
    requires n + 4 <= |m|
  {
    Read(m, n) % 2
  }

  function Size(m: seq<Byte>, n: nat): nat
    requires n + 4 <= |m|
  {
    Read(m, n) / 2
  }

  function SetTag(m: seq<Byte>, n: nat, tag: nat): (r: seq<Byte>)
    requires n + 4 <= |m| && tag < 2
  {
    Write(m, n, Read(m, n) / 2 * 2 + tag)
  }

  function SetSize(m: seq<Byte>, n: nat, size: nat): (r: seq<Byte>)
    requires n + 4 <= |m|
  {
    Write(m, n, size % (WORD / 2) * 2 + Read(m, n) % 2)
  }

  /** group->free += d, on 32 bits. */
  function AddFree(m: seq<Byte>, g: nat, d: nat): seq<Byte>
    requires g + GROUP_SIZE <= |m|
  {
    Write(m, g + FREE_OFFSET, (Read(m, g + FREE_OFFSET) + d) % WORD)
  }

  /** group->free -= d, on 32 bits. */
  function SubFree(m: seq<Byte>, g: nat, d: Word): seq<Byte>
    requires g + GROUP_SIZE <= |m|
  {
    Write(m, g + FREE_OFFSET, (Read(m, g + FREE_OFFSET) + WORD - d) % WORD)
  }

  // ---------- frames ----------

  /** The word at w overlaps no list_node of l. */
  ghost predicate Off(l: seq<nat>, w: nat) {
    forall i | 0 <= i < |l| :: w + 4 <= l[i] || l[i] + LINK <= w
  }

  lemma RingKept(m: seq<Byte>, l: seq<nat>, w: nat, v: Word)
    requires IsRing(m, l) && w + 4 <= |m| && Off(l, w)
    ensures IsRing(Write(m, w, v), l)
  {
    var m' := Write(m, w, v);
    forall i | 0 <= i < |l| ensures Linked(m', l, i) { assert Linked(m, l, i); }
  }

  lemma {:induction false} HeadersConcat(m: seq<Byte>, at: nat, a: seq<Block>, b: seq<Block>)
    ensures Headers(m, at, a + b) <==> Headers(m, at, a) && Headers(m, at + Span(a), b)
    decreases |a|
  {
    if a == [] {
      assert a + b == b;
    } else {
      assert (a + b)[1..] == a[1..] + b;
      HeadersConcat(m, at + HEADER_SIZE + a[0].size, a[1..], b);
    }
  }

  lemma HeadersAround(m: seq<Byte>, at: nat, a: seq<Block>, x: Block, b: seq<Block>)
    ensures var n := at + Span(a);
      Headers(m, at, a + [x] + b) <==>
        Headers(m, at, a) && n + 4 <= |m| && Read(m, n) == Header(x) && Headers(m, n + HEADER_SIZE + x.size, b)
  {
    assert a + [x] + b == a + ([x] + b) && ([x] + b)[1..] == b;
    HeadersConcat(m, at, a, [x] + b);
  }

  lemma HeadersAroundTwo(m: seq<Byte>, at: nat, a: seq<Block>, x: Block, y: Block, b: seq<Block>)
    ensures var n := at + Span(a);
      var n' := n + HEADER_SIZE + x.size;
      Headers(m, at, a + [x, y] + b) <==>
        Headers(m, at, a) && n + 4 <= |m| && Read(m, n) == Header(x) && n' + 4 <= |m| && Read(m, n') == Header(y)
        && Headers(m, n' + HEADER_SIZE + y.size, b)
  {
    assert a + [x, y] + b == a + [x] + ([y] + b) && ([y] + b)[1..] == b;
    HeadersAround(m, at, a, x, [y] + b);
  }

  /** Headers survive when the words between them and the next blocks do. */
  lemma {:induction false} HeadersSame(m: seq<Byte>, m': seq<Byte>, at: nat, bs: seq<Block>)
    requires Headers(m, at, bs) && |m'| == |m|
    requires forall x: nat {:trigger Read(m', x)} | at <= x && x + 4 <= at + Span(bs) && x + 4 <= |m| ::
      Read(m', x) == Read(m, x)
    ensures Headers(m', at, bs)
    decreases |bs|
  {
    if bs != [] { HeadersSame(m, m', at + HEADER_SIZE + bs[0].size, bs[1..]); }
  }

  /** Only list_nodes of l changed. */
  ghost predicate OnlyLinks(m: seq<Byte>, m': seq<Byte>, l: seq<nat>) {
    |m'| == |m| && forall x: nat {:trigger Read(m', x)} | x + 4 <= |m| && Off(l, x) :: Read(m', x) == Read(m, x)
  }

  /** The headers of bs overlap no list_node of l. */
  ghost predicate Clear(at: nat, bs: seq<Block>, l: seq<nat>)
    decreases |bs|
  {
    bs == [] || (Off(l, at) && Clear(at + HEADER_SIZE + bs[0].size, bs[1..], l))
  }

  lemma {:induction false} HeadersClear(m: seq<Byte>, m': seq<Byte>, at: nat, bs: seq<Block>, l: seq<nat>)
    requires Headers(m, at, bs) && OnlyLinks(m, m', l) && Clear(at, bs, l)
    ensures Headers(m', at, bs)
    decreases |bs|
  {
    if bs != [] { HeadersClear(m, m', at + HEADER_SIZE + bs[0].size, bs[1..], l); }
  }

  lemma {:induction false} ClearLinks(pre: seq<nat>, at: nat, bs: seq<Block>)
    requires BigEnough(bs) && forall i | 0 <= i < |pre| :: pre[i] + LINK <= at
    ensures Clear(at, bs, pre + Links(at, bs))
    decreases |bs|
  {
    if bs != [] {
      var at', l := at + HEADER_SIZE + bs[0].size, pre + Links(at, bs);
      var pre' := pre + if bs[0].free then [at + HEADER_SIZE] else [];
      assert l == pre' + Links(at', bs[1..]);
      ClearLinks(pre', at', bs[1..]);
      forall i | 0 <= i < |l| ensures at + 4 <= l[i] || l[i] + LINK <= at {
        if i >= |pre| { LinksWithin(at, bs, Links(at, bs)[i - |pre|]); assert l[i] == Links(at, bs)[i - |pre|]; }
      }
    }
  }

  /** No header of the group overlaps a node of its free list. */
  lemma GroupClear(g: Group)
    requires BigEnough(g.blocks)
    ensures Clear(g.First(), g.blocks, g.FreeRing())
  {
    ClearLinks([g.Head()], g.First(), g.blocks);
  }

  lemma LinksOff(at: nat, bs: seq<Block>, w: nat)
    requires BigEnough(bs) && (w + 4 <= at + HEADER_SIZE || at + Span(bs) <= w)
    ensures Off(Links(at, bs), w)
  {
    var l := Links(at, bs);
    forall i | 0 <= i < |l| ensures w + 4 <= l[i] || l[i] + LINK <= w { LinksWithin(at, bs, l[i]); }
  }

  lemma FieldOff(g: Group, w: nat)
    requires BigEnough(g.blocks) && w + 4 <= g.Head()
    ensures Off(g.FreeRing(), w)
  {
    LinksOff(g.First(), g.blocks, w);
    var l := g.FreeRing();
    forall i | 0 <= i < |l|
      ensures w + 4 <= l[i] || l[i] + LINK <= w { if i > 0 { assert l[i] == Links(g.First(), g.blocks)[i - 1]; } }
  }

  lemma BigParts(a: seq<Block>, c: seq<Block>, b: seq<Block>)
    requires BigEnough(a + c + b)
    ensures BigEnough(a) && BigEnough(c) && BigEnough(b)
  {
    var bs := a + c + b;
    assert forall i | 0 <= i < |a| :: bs[i] == a[i];
    assert forall i | 0 <= i < |c| :: bs[|a| + i] == c[i];
    assert forall i | 0 <= i < |b| :: bs[|a| + |c| + i] == b[i];
  }

  lemma OffParts(head: nat, la: seq<nat>, mid: seq<nat>, lb: seq<nat>, w: nat)
    requires Off([head], w) && Off(la, w) && Off(mid, w) && Off(lb, w)
    ensures Off([head] + (la + mid + lb), w)
  {
    var l := [head] + (la + mid + lb);
    forall i | 0 <= i < |l| ensures w + 4 <= l[i] || l[i] + LINK <= w {
      if 1 <= i <= |la| { assert l[i] == la[i - 1]; }
      else if i > |la| + |mid| { assert l[i] == lb[i - 1 - |la| - |mid|]; }
    }
  }

  /** A header word, or any word inside an allocated block, is off the free list. */
  lemma InsideOff(g: Group, a: seq<Block>, x: Block, b: seq<Block>, w: nat)
    requires BigEnough(g.blocks) && g.blocks == a + [x] + b
    requires var n := g.First() + Span(a); n <= w && w + 4 <= n + HEADER_SIZE + (if x.free then 0 else x.size)
    ensures Off(g.FreeRing(), w)
  {
    var n := g.First() + Span(a);
    BigParts(a, [x], b);
    AroundSums(g.First(), a, x, b);
    AroundLinks(g.First(), a, x, b, n);
    LinksOff(g.First(), a, w);
    LinksOff(n + HEADER_SIZE + x.size, b, w);
    OffParts(g.Head(), Links(g.First(), a), if x.free then [n + HEADER_SIZE] else [],
      Links(n + HEADER_SIZE + x.size, b), w);
  }

  // ---------- kept bytes ----------

  lemma FieldScratch(g: Group, b: nat)
    requires g.Tiled() && (g.base <= b < g.base + GROUP_LIST_OFFSET || g.Head() <= b < g.First())
    ensures !g.Kept(b)
  {
    forall k | 0 <= k < |Live(g.First(), g.blocks)| ensures b < Live(g.First(), g.blocks)[k].start {
      LiveWithin(g.First(), g.blocks, k);
    }
    SpanPositive(g);
  }

  lemma SpanPositive(g: Group)
    requires g.Tiled()
    ensures g.blocks != [] && g.First() + NODE_SIZE <= g.End() && g.Capacity() == Span(g.blocks) - HEADER_SIZE
  {
    assert g.blocks != [] ==> g.blocks[0].size >= MIN_SIZE;
  }

  /** The list_nodes of the free list hold no kept byte. */
  lemma LinkScratch(g: Group, l: nat, b: nat)
    requires g.Tiled() && l in g.FreeRing() && l <= b < l + LINK
    ensures !g.Kept(b)
  {
    if l == g.Head() {
      FieldScratch(g, b);
    } else {
      LinksWithin(g.First(), g.blocks, l);
      forall k | 0 <= k < |Live(g.First(), g.blocks)|
        ensures var e := Live(g.First(), g.blocks)[k]; b < e.start || e.start + e.len <= b {
        LinkNotLive(g.First(), g.blocks, k, l);
      }
    }
  }

  /** A FREE block holds no kept byte. */
  lemma BlockScratch(g: Group, a: seq<Block>, x: Block, b: seq<Block>, i: nat)
    requires g.Tiled() && g.blocks == a + [x] + b && x.free
    requires var n := g.First() + Span(a); n <= i < n + HEADER_SIZE + x.size
    ensures !g.Kept(i)
  {
    var n := g.First() + Span(a);
    AroundSums(g.First(), a, x, b);
    AroundLive(g.First(), a, x, b, n);
    var la, lb := Live(g.First(), a), Live(n + HEADER_SIZE + x.size, b);
    var l := Live(g.First(), g.blocks);
    assert l == la + lb;
    forall k | 0 <= k < |l| ensures i < l[k].start || l[k].start + l[k].len <= i {
      if k < |la| { LiveWithin(g.First(), a, k); } else { LiveWithin(n + HEADER_SIZE + x.size, b, k - |la|); }
    }
  }

  lemma SafeWrite(m: seq<Byte>, g: Group, w: nat, v: Word)
    requires w + 4 <= |m| && forall b | w <= b < w + 4 :: !g.Kept(b)
    ensures Safe(m, Write(m, w, v), g)
  {
  }

  lemma SafeField(m: seq<Byte>, g: Group, w: nat, v: Word)
    requires g.Tiled() && g.base <= w && w + 4 <= g.base + GROUP_LIST_OFFSET && w + 4 <= |m|
    ensures Safe(m, Write(m, w, v), g)
  {
    forall b | w <= b < w + 4 ensures !g.Kept(b) { FieldScratch(g, b); }
  }

  lemma SafeHeader(m: seq<Byte>, g: Group, a: seq<Block>, x: Block, b: seq<Block>, w: nat, v: Word)
    requires g.Tiled() && g.blocks == a + [x] + b && x.free && w + 4 <= |m|
    requires var n := g.First() + Span(a); n <= w && w + 4 <= n + HEADER_SIZE + x.size
    ensures Safe(m, Write(m, w, v), g)
  {
    forall i | w <= i < w + 4 ensures !g.Kept(i) { BlockScratch(g, a, x, b, i); }
  }

  /** No byte of the list_node at l is kept. */
  ghost predicate Scratch(g: Group, l: nat) {
    forall b | l <= b < l + LINK :: !g.Kept(b)
  }

  lemma SafeAdd(m: seq<Byte>, g: Group, p: nat, n: nat, q: nat)
    requires p + LINK <= |m| && n + LINK <= |m| && q + LINK <= |m| && p < WORD && n < WORD && q < WORD
    requires Scratch(g, p) && Scratch(g, n) && Scratch(g, q)
    ensures Safe(m, AddBetween(m, p, n, q), g)
  {
    SafeWrite(m, g, p + 4, n);
    var m1 := SetNext(m, p, n);
    SafeWrite(m1, g, q, n);
    var m2 := SetPrev(m1, q, n);
    SafeWrite(m2, g, n, p);
    var m3 := SetPrev(m2, n, p);
    SafeWrite(m3, g, n + 4, q);
  }

  lemma SafeDel(m: seq<Byte>, g: Group, p: nat, n: nat, q: nat)
    requires p + LINK <= |m| && n + LINK <= |m| && q + LINK <= |m| && n < WORD && Prev(m, n) == p && Next(m, n) == q
    requires Apart(p, n) && Apart(q, n) && p != n && q != n && Scratch(g, p) && Scratch(g, n) && Scratch(g, q)
    ensures Safe(m, Del(m, n), g)
  {
    SafeWrite(m, g, p + 4, q);
    var m1 := SetNext(m, p, q);
    SafeWrite(m1, g, q, p);
    var m2 := SetPrev(m1, q, p);
    SafeWrite(m2, g, n, n);
    SafeWrite(Write(m2, n, n), g, n + 4, n);
    assert Next(m1, n) == q && Prev(m1, n) == p;
  }

  lemma AddOnlyLinks(m: seq<Byte>, l: seq<nat>, p: nat, n: nat, q: nat)
    requires p + LINK <= |m| && n + LINK <= |m| && q + LINK <= |m| && p < WORD && n < WORD && q < WORD
    requires p in l && n in l && q in l
    ensures OnlyLinks(m, AddBetween(m, p, n, q), l)
  {
    var m1 := SetNext(m, p, n);
    var m2 := SetPrev(m1, q, n);
    var m3 := SetPrev(m2, n, p);
    var m4 := SetNext(m3, n, q);
    forall x: nat | x + 4 <= |m| && Off(l, x) ensures Read(m4, x) == Read(m, x) {
      assert Read(m1, x) == Read(m, x);
      assert Read(m2, x) == Read(m1, x);
      assert Read(m3, x) == Read(m2, x);
    }
  }

  lemma DelOnlyLinks(m: seq<Byte>, l: seq<nat>, p: nat, n: nat, q: nat)
    requires p + LINK <= |m| && n + LINK <= |m| && q + LINK <= |m| && n < WORD && Prev(m, n) == p && Next(m, n) == q
    requires Apart(p, n) && Apart(q, n) && p != n && q != n && p in l && n in l && q in l
    ensures OnlyLinks(m, Del(m, n), l)
  {
    var m1 := SetNext(m, p, q);
    assert Next(m1, n) == q && Prev(m1, n) == p;
    var m2 := SetPrev(m1, q, p);
    var m3 := Init(m2, n);
    assert Del(m, n) == m3;
    forall x: nat | x + 4 <= |m| && Off(l, x) ensures Read(m3, x) == Read(m, x) {
      assert Read(m1, x) == Read(m, x);
      assert Read(m2, x) == Read(m1, x);
      assert Read(Write(m2, n, n), x) == Read(m2, x);
    }
  }
}
