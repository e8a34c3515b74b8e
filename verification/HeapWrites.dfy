/** Allocation and release inside one kmalloc group (src/kmalloc.c), write by write. */
module HeapWrites {
  import opened Memory
  import opened Ring
  import opened HeapLayout
  import opened HeapMemory
  import opened HeapSteps

  const FREE: nat := 0
  const ALLOCATED: nat := 1
  const NULL: nat := 0

  function Max(a: nat, b: nat): nat { if a < b then b else a }

  /** The first FREE block of at least size bytes. */
  ghost predicate FirstFit(bs: seq<Block>, size: nat, i: nat) {
    i < |bs| && bs[i].free && bs[i].size >= size && forall j | 0 <= j < i && bs[j].free :: bs[j].size < size
  }

  ghost predicate NoFit(bs: seq<Block>, size: nat) {
    forall j | 0 <= j < |bs| && bs[j].free :: bs[j].size < size
  }

  /** Header words read and written through the bit-fields. */
  lemma HeaderBits(b: Block)
    requires b.size < WORD / 2
    ensures Header(b) / 2 == b.size && Header(b) % 2 == if b.free then FREE else ALLOCATED
    ensures Header(b) / 2 * 2 + FREE == Header(b.(free := true))
    ensures Header(b) / 2 * 2 + ALLOCATED == Header(b.(free := false))
  {
  }

  lemma Parts(bs: seq<Block>, i: nat)
    requires i < |bs|
    ensures bs == bs[..i] + [bs[i]] + bs[i + 1..]
  {
  }

  lemma SetSizeIs(m: seq<Byte>, n: nat, b: Block, size: nat)
    requires n + 4 <= |m| && Read(m, n) == Header(b) && size < WORD / 2
    ensures Header(b.(size := size)) < WORD && SetSize(m, n, size) == Write(m, n, Header(b.(size := size)))
  {
    HeaderBits(b);
    HalfWord(size);
    assert size % (WORD / 2) * 2 + Read(m, n) % 2 == Header(b.(size := size));
  }

  lemma HalfWord(size: nat)
    requires size < WORD / 2
    ensures size % (WORD / 2) == size
  {
  }

  lemma AddFreeIs(m: seq<Byte>, g: nat, free: nat, d: nat)
    requires g + GROUP_SIZE <= |m| && Read(m, g + FREE_OFFSET) == free && free + d < WORD
    ensures AddFree(m, g, d) == Write(m, g + FREE_OFFSET, free + d)
  {
  }

  lemma WrapsOnce(x: nat)
    requires x < WORD
    ensures (x + WORD) % WORD == x
  {
  }

  lemma SubFreeIs(m: seq<Byte>, g: nat, free: nat, d: Word)
    requires g + GROUP_SIZE <= |m| && Read(m, g + FREE_OFFSET) == free && d <= free
    ensures SubFree(m, g, d) == Write(m, g + FREE_OFFSET, free - d)
  {
    WrapsOnce(free - d);
  }

  lemma ReadHeader(m: seq<Byte>, g: Group, i: nat)
    requires g.Tiled() && g.End() <= |m| <= WORD && Headers(m, g.First(), g.blocks) && i < |g.blocks|
    ensures var n := g.First() + Span(g.blocks[..i]);
      n + HEADER_SIZE + g.blocks[i].size <= g.End() && Read(m, n) == Header(g.blocks[i])
        && g.blocks[i].size < KERNEL_SIZE
  {
    var a, x, b := g.blocks[..i], g.blocks[i], g.blocks[i + 1..];
    assert g.blocks == a + [x] + b;
    HeadersAround(m, g.First(), a, x, b);
    HeaderInMemory(m, g, a, x, b);
  }

  // ---------- allocation, write by write ----------

  lemma NodeSize(m: seq<Byte>, g: Group, a: seq<Block>, x: Block, b: seq<Block>)
    requires Rep(m, g) && g.blocks == a + [x] + b
    ensures var n := g.First() + Span(a);
      && n + HEADER_SIZE + x.size <= |m| && Size(m, n) == x.size && Tag(m, n) == (if x.free then FREE else ALLOCATED)
      && MIN_SIZE <= x.size < KERNEL_SIZE
  {
    HeadersAround(m, g.First(), a, x, b);
    HeaderInMemory(m, g, a, x, b);
    HeaderBits(x);
  }

  // ---------- the search for a free node ----------

  /** The k-th node of the free list, or the head after the last. */
  function NodeOf(g: Group, k: nat): nat
    requires k <= |g.FreeRing()|
  {
    g.FreeRing()[if k == |g.FreeRing()| then 0 else k]
  }

  /** The blocks of the first k - 1 nodes are too small. */
  ghost predicate SmallBefore(g: Group, k: nat, size: nat) {
    forall j | 0 <= j < |g.blocks| && g.blocks[j].free && |Links(g.First(), g.blocks[..j])| + 1 < k ::
      g.blocks[j].size < size
  }

  lemma StartOfList(m: seq<Byte>, g: Group, size: nat)
    requires Rep(m, g)
    ensures g.Head() + LINK <= |m| && Next(m, g.Head()) == NodeOf(g, 1) && SmallBefore(g, 1, size)
  {
    RingBounds(m, g.FreeRing(), 0);
  }

  /** The search at node k: its block is the first that fits, or the search goes on. */
  lemma Probe(m: seq<Byte>, g: Group, k: nat, size: nat) returns (i: nat)
    requires Rep(m, g) && 1 <= k <= |g.FreeRing()| && NodeOf(g, k) != g.Head() && SmallBefore(g, k, size)
    ensures k < |g.FreeRing()| && HEADER_SIZE <= NodeOf(g, k) && NodeOf(g, k) + LINK <= |m|
    ensures i < |g.blocks| && NodeOf(g, k) - HEADER_SIZE == g.First() + Span(g.blocks[..i])
    ensures Size(m, NodeOf(g, k) - HEADER_SIZE) >= size ==> FirstFit(g.blocks, size, i)
    ensures Size(m, NodeOf(g, k) - HEADER_SIZE) < size ==>
      SmallBefore(g, k + 1, size) && Next(m, NodeOf(g, k)) == NodeOf(g, k + 1)
  {
    i := BlockAt(g.First(), g.blocks, k - 1);
    assert g.FreeRing()[k] == Links(g.First(), g.blocks)[k - 1];
    ReadHeader(m, g, i);
    RingBounds(m, g.FreeRing(), k);
    Others(g, k, i, size);
  }

  lemma Others(g: Group, k: nat, i: nat, size: nat)
    requires SmallBefore(g, k, size) && i < |g.blocks| && g.blocks[i].free && |Links(g.First(), g.blocks[..i])| + 1 == k
    ensures forall j | 0 <= j < i && g.blocks[j].free :: g.blocks[j].size < size
    ensures g.blocks[i].size < size ==> SmallBefore(g, k + 1, size)
  {
    forall j | 0 <= j < i && g.blocks[j].free
      ensures g.blocks[j].size < size { PositionsGrow(g.First(), g.blocks, j, i); }
    forall j | i < j < |g.blocks| && g.blocks[j].free
      ensures |Links(g.First(), g.blocks[..j])| + 1 > k { PositionsGrow(g.First(), g.blocks, i, j); }
  }

  lemma EndOfList(m: seq<Byte>, g: Group, k: nat, size: nat)
    requires Rep(m, g) && 1 <= k <= |g.FreeRing()| && NodeOf(g, k) == g.Head() && SmallBefore(g, k, size)
    ensures NoFit(g.blocks, size)
  {
    HeadOnce(m, g.FreeRing(), k);
    assert g.blocks[..|g.blocks|] == g.blocks;
    forall j | 0 <= j < |g.blocks| && g.blocks[j].free
      ensures g.blocks[j].size < size { PositionsGrow(g.First(), g.blocks, j, |g.blocks|); }
  }

  // ---------- single writes ----------

  /** Writing group->free. */
  lemma CounterStep(m: seq<Byte>, g: Group, l: seq<nat>, free: int, v: Word)
    requires Body(m, g, free) && IsRing(m, l) && Off(l, g.base + FREE_OFFSET)
    ensures var m' := Write(m, g.base + FREE_OFFSET, v); Body(m', g, v) && IsRing(m', l) && Safe(m, m', g)
  {
    WriteCounter(m, g, free, v);
    RingKept(m, l, g.base + FREE_OFFSET, v);
    SafeField(m, g, g.base + FREE_OFFSET, v);
  }

  /** Writing the tag of x, which stays in the list l. */
  lemma TagStep(m: seq<Byte>, g: Group, g': Group, on: Group, l: seq<nat>, free: int, a: seq<Block>, x: Block,
    b: seq<Block>, x': Block, n: nat)
    requires Body(m, g, free) && IsRing(m, l) && Off(l, n) && g.blocks == a + [x] + b && n == g.First() + Span(a)
    requires x'.size == x.size && g' == g.(blocks := a + [x'] + b) && on == g.(blocks := a + [x.(free := true)] + b)
    ensures n + 4 <= |m| && Read(m, n) == Header(x) && x.size < KERNEL_SIZE && Header(x') < WORD
    ensures var m' := Write(m, n, Header(x')); Body(m', g', free) && IsRing(m', l) && Safe(m, m', on)
  {
    HeaderInMemory(m, g, a, x, b);
    HeadersAround(m, g.First(), a, x, b);
    WriteHeader(m, g, g', free, a, x, b, x', n);
    RingKept(m, l, n, Header(x'));
    TagSafe(m, g, on, a, x, b, n, Header(x'));
  }

  lemma TagSafe(m: seq<Byte>, g: Group, on: Group, a: seq<Block>, x: Block, b: seq<Block>, n: nat, v: Word)
    requires g.Tiled() && g.blocks == a + [x] + b && on == g.(blocks := a + [x.(free := true)] + b)
    requires n == g.First() + Span(a) && n + 4 <= |m|
    ensures Safe(m, Write(m, n, v), on)
  {
    TiledSame(g, a, x, b, x.(free := true));
    SafeHeader(m, on, a, x.(free := true), b, n, v);
  }

  lemma TakeCounter(m: seq<Byte>, g: Group, a: seq<Block>, x: Block, b: seq<Block>)
    requires Rep(m, g) && g.blocks == a + [x] + b && x.free
    ensures x.size < WORD
    ensures var m' := SubFree(m, g.base, x.size);
      Body(m', g, FreeBytes(g.blocks) - x.size) && IsRing(m', g.FreeRing()) && Safe(m, m', g)
  {
    TakeBytes(a, x, b);
    HeaderInMemory(m, g, a, x, b);
    SubFreeIs(m, g.base, FreeBytes(g.blocks), x.size);
    FieldOff(g, g.base + FREE_OFFSET);
    CounterStep(m, g, g.FreeRing(), FreeBytes(g.blocks), FreeBytes(g.blocks) - x.size);
  }

  lemma SetTagIs(m: seq<Byte>, n: nat, b: Block, tag: nat)
    requires n + 4 <= |m| && Read(m, n) == Header(b) && b.size < WORD / 2 && (tag == FREE || tag == ALLOCATED)
    ensures Size(m, n) == b.size && Header(b.(free := tag == FREE)) < WORD
    ensures SetTag(m, n, tag) == Write(m, n, Header(b.(free := tag == FREE)))
  {
    HeaderBits(b);
  }

  lemma TakeTag(m: seq<Byte>, g: Group, g1: Group, free: int, a: seq<Block>, x: Block, b: seq<Block>, n: nat)
    requires Body(m, g, free) && IsRing(m, g.FreeRing()) && g.blocks == a + [x] + b && x.free
    requires g1 == g.(blocks := a + [x.(free := false)] + b) && n == g.First() + Span(a)
    ensures n + 4 <= |m| && Size(m, n) == x.size
    ensures var m' := SetTag(m, n, ALLOCATED); Body(m', g1, free) && IsRing(m', g.FreeRing()) && Safe(m, m', g)
  {
    assert x.(free := true) == x;
    InsideOff(g, a, x, b, n);
    TagStep(m, g, g1, g, g.FreeRing(), free, a, x, b, x.(free := false), n);
    SetTagIs(m, n, x, ALLOCATED);
  }

  lemma TakeUnlink(m: seq<Byte>, g: Group, g1: Group, free: int, a: seq<Block>, x: Block, b: seq<Block>, n: nat)
    requires Body(m, g1, free) && IsRing(m, g.FreeRing()) && g.Tiled() && g.blocks == a + [x] + b && x.free
    requires g1 == g.(blocks := a + [x.(free := false)] + b) && n == g.First() + Span(a) + HEADER_SIZE
    ensures n + LINK <= |m| && n < WORD && Prev(m, n) + LINK <= |m| && Next(m, n) + LINK <= |m| && Apart(Prev(m, n), n)
    ensures Apart(Next(m, n), n)
    ensures Position(g, a) <= |g1.FreeRing()| && Prev(m, n) == g1.FreeRing()[Position(g, a) - 1]
    ensures Body(Del(m, n), g1, free) && IsRing(Del(m, n), g1.FreeRing()) && Safe(m, Del(m, n), g)
  {
    Unlink(m, g, g1, a, x, b, n);
    SameSizes(a, x, b, x.(free := false));
    RelinkBody(m, Del(m, n), g1, g, free);
  }

  lemma TakeBytes(a: seq<Block>, x: Block, b: seq<Block>)
    requires x.free
    ensures FreeBytes(a + [x.(free := false)] + b) == FreeBytes(a + [x] + b) - x.size
  {
    Around(0, a, x, b);
    Around(0, a, x.(free := false), b);
  }

  lemma SplitBytes(a: seq<Block>, x: Block, z: Block, y: Block, b: seq<Block>)
    requires IsCut(x, z, y)
    ensures FreeBytes(a + [z, y] + b) == FreeBytes(a + [x] + b) + y.size
  {
    Around(0, a, x, b);
    AroundTwo(0, a, z, y, b);
  }

  /** A write inside the block x, taken but not yet handed out. */
  lemma InsideStep(m: seq<Byte>, g: Group, g1: Group, free: int, a: seq<Block>, x: Block, b: seq<Block>, w: nat,
    v: Word)
    requires g.Tiled() && x.free && g.blocks == a + [x] + b && g1 == g.(blocks := a + [x.(free := false)] + b)
    requires Body(m, g1, free) && IsRing(m, g1.FreeRing())
    requires g.First() + Span(a) + HEADER_SIZE <= w && w + 4 <= g.First() + Span(a) + HEADER_SIZE + x.size
    ensures w + 4 <= |m| <= WORD
    ensures var m' := Write(m, w, v); Body(m', g1, free) && IsRing(m', g1.FreeRing()) && Safe(m, m', g)
  {
    HeaderInMemory(m, g, a, x, b);
    WriteInside(m, g1, free, a, x.(free := false), b, w, v);
    RingKept(m, g1.FreeRing(), w, v);
    SafeHeader(m, g, a, x, b, w, v);
  }

  /** The header and the list_node of the new FREE node y. */
  lemma SplitPrepare(m: seq<Byte>, g: Group, g1: Group, free: int, a: seq<Block>, x: Block, y: Block, b: seq<Block>,
    rest: nat)
    requires g.Tiled() && x.free && g.blocks == a + [x] + b && g1 == g.(blocks := a + [x.(free := false)] + b)
    requires Body(m, g1, free) && IsRing(m, g1.FreeRing()) && y.free && MIN_SIZE <= y.size < WORD / 2
    requires g.First() + Span(a) + NODE_SIZE <= rest
    requires rest + HEADER_SIZE + y.size == g.First() + Span(a) + HEADER_SIZE + x.size
    ensures rest + HEADER_SIZE + LINK <= |m| <= WORD
    ensures var m' := Init(SetSize(SetTag(m, rest, FREE), rest, y.size), rest + HEADER_SIZE);
      Body(m', g1, free) && IsRing(m', g1.FreeRing()) && Safe(m, m', g) && Read(m', rest) == Header(y)
  {
    var n := rest + HEADER_SIZE;
    PrepareHeader(m, g, g1, free, a, x, y, b, rest);
    PrepareLinks(m, SetSize(SetTag(m, rest, FREE), rest, y.size), g, g1, free, a, x, y, b, rest, n);
  }

  lemma PrepareLinks(m: seq<Byte>, m2: seq<Byte>, g: Group, g1: Group, free: int, a: seq<Block>, x: Block, y: Block,
    b: seq<Block>, rest: nat, n: nat)
    requires g.Tiled() && x.free && g.blocks == a + [x] + b && g1 == g.(blocks := a + [x.(free := false)] + b)
    requires Body(m2, g1, free) && IsRing(m2, g1.FreeRing()) && Safe(m, m2, g) && MIN_SIZE <= y.size
    requires g.First() + Span(a) + NODE_SIZE <= rest && n == rest + HEADER_SIZE
    requires n + y.size == g.First() + Span(a) + HEADER_SIZE + x.size
    requires rest + 4 <= |m2| && Read(m2, rest) == Header(y) && n + LINK <= |m2|
    ensures var m' := Init(m2, n);
      Body(m', g1, free) && IsRing(m', g1.FreeRing()) && Safe(m, m', g) && Read(m', rest) == Header(y)
  {
    InsideStep(m2, g, g1, free, a, x, b, n, n);
    var m3 := Write(m2, n, n);
    InsideStep(m3, g, g1, free, a, x, b, n + 4, n);
    SafeChain(m, m2, m3, g);
    SafeChain(m, m3, Write(m3, n + 4, n), g);
  }

  lemma SafeChain(m0: seq<Byte>, m1: seq<Byte>, m2: seq<Byte>, g: Group)
    requires Safe(m0, m1, g) && Safe(m1, m2, g)
    ensures Safe(m0, m2, g)
  {
  }

  lemma FreeTag(m: seq<Byte>, n: nat, b: Block)
    requires n + 4 <= |m| && b == Block(Read(m, n) / 2, true)
    ensures Header(b) < WORD && SetTag(m, n, FREE) == Write(m, n, Header(b))
  {
  }

  lemma PrepareHeader(m: seq<Byte>, g: Group, g1: Group, free: int, a: seq<Block>, x: Block, y: Block, b: seq<Block>,
    rest: nat)
    requires g.Tiled() && x.free && g.blocks == a + [x] + b && g1 == g.(blocks := a + [x.(free := false)] + b)
    requires Body(m, g1, free) && IsRing(m, g1.FreeRing()) && y.free && MIN_SIZE <= y.size < WORD / 2
    requires g.First() + Span(a) + NODE_SIZE <= rest
    requires rest + HEADER_SIZE + y.size == g.First() + Span(a) + HEADER_SIZE + x.size
    ensures rest + HEADER_SIZE + LINK <= |m| <= WORD
    ensures var m' := SetSize(SetTag(m, rest, FREE), rest, y.size);
      Body(m', g1, free) && IsRing(m', g1.FreeRing()) && Safe(m, m', g) && Read(m', rest) == Header(y)
  {
    HeaderInMemory(m, g, a, x, b);
    var b0 := Block(Read(m, rest) / 2, true);
    FreeTag(m, rest, b0);
    InsideStep(m, g, g1, free, a, x, b, rest, Header(b0));
    var m1 := Write(m, rest, Header(b0));
    SetSizeIs(m1, rest, b0, y.size);
    InsideStep(m1, g, g1, free, a, x, b, rest, Header(y));
  }

  /** A live byte stays live when an allocation is cut out of a FREE block. */
  lemma CutKept(g: Group, g2: Group, a: seq<Block>, x: Block, b: seq<Block>, size: nat, i: nat)
    requires x.free && size <= x.size && g.blocks == a + [x] + b && g2 == g.(blocks := a + Cut(x.size, size) + b)
    requires g.Kept(i)
    ensures g2.Kept(i)
  {
    var at := g.First();
    CutKeeps(at, a, x, b, size);
    var la, lb := Live(at, a), Live(at + Span(a) + HEADER_SIZE + x.size, b);
    var l, l2 := Live(at, g.blocks), Live(at, g2.blocks);
    if IsLive(at, g.blocks, i) {
      var k :| 0 <= k < |l| && l[k].start <= i < l[k].start + l[k].len;
      assert l2[if k < |la| then k else k + 1] == l[k];
    }
  }

  lemma CutOf(x: Block, z: Block, y: Block)
    requires IsCut(x, z, y)
    ensures z.size <= x.size && Cut(x.size, z.size) == [z, y]
  {
  }

  lemma SplitAdd(m: seq<Byte>, g: Group, g1: Group, g2: Group, a: seq<Block>, x: Block, z: Block, y: Block,
    b: seq<Block>, n: nat)
    requires x.free && g.blocks == a + [x] + b && g1 == g.(blocks := a + [x.(free := false)] + b)
    requires g2 == g.(blocks := a + [z, y] + b)
    requires IsCut(x.(free := false), z, y) && Rep(m, g1) && n == g.First() + Span(a) + 2 * HEADER_SIZE + z.size
    requires n <= |m| && n >= 4 && Read(m, n - 4) == Header(y)
    ensures Position(g, a) <= |g1.FreeRing()|
    ensures var p := g1.FreeRing()[Position(g, a) - 1];
      && p + LINK <= |m| && p < WORD && n + LINK <= |m| && n < WORD && Next(m, p) + LINK <= |m|
      && var m' := AddBetween(m, p, n, Next(m, p));
         Splitting(m', g.First(), a, x.(free := false), z, y, b) && g2.Tiled() && Fields(m', g2)
         && Read(m', g.base + FREE_OFFSET) == FreeBytes(g1.blocks) && IsRing(m', g2.FreeRing()) && Safe(m, m', g)
  {
    var x1 := x.(free := false);
    SplitLink(m, g1, g2, a, x1, z, y, b, n);
    var p := g1.FreeRing()[Position(g, a) - 1];
    var m' := AddBetween(m, p, n, Next(m, p));
    SplitHeaders(m, m', g1, g2, a, x1, z, y, b, n - 4);
    SplitFrame(m, m', g, g1, g2, a, x, z, y, b);
  }

  /** Linking the new FREE node touches neither the fields of the group nor what is live. */
  lemma SplitFrame(m: seq<Byte>, m': seq<Byte>, g: Group, g1: Group, g2: Group, a: seq<Block>, x: Block, z: Block,
    y: Block, b: seq<Block>)
    requires x.free && g.blocks == a + [x] + b && g1 == g.(blocks := a + [x.(free := false)] + b)
    requires g2 == g.(blocks := a + [z, y] + b)
    requires IsCut(x.(free := false), z, y) && Rep(m, g1) && g2.Tiled() && OnlyLinks(m, m', g2.FreeRing())
    requires Safe(m, m', g2)
    ensures Fields(m', g2) && Read(m', g.base + FREE_OFFSET) == FreeBytes(g1.blocks) && Safe(m, m', g)
  {
    FieldsOnlyLinks(m, m', g2);
    CutOf(x.(free := false), z, y);
    forall i | 0 <= i < |m| && g.Kept(i) ensures m'[i] == m[i] { CutKept(g, g2, a, x, b, z.size, i); }
  }

  /** group->free grows by the new FREE node. */
  lemma SplitCount(m: seq<Byte>, g: Group, g2: Group, free: nat, a: seq<Block>, x: Block, z: Block, y: Block,
    b: seq<Block>)
    requires g.Tiled() && g2 == g.(blocks := g2.blocks) && Splitting(m, g.First(), a, x, z, y, b) && g2.Tiled()
    requires Fields(m, g2)
    requires Read(m, g.base + FREE_OFFSET) == free && free + y.size < WORD && IsRing(m, g2.FreeRing())
    ensures var m' := AddFree(m, g.base, y.size);
      && Splitting(m', g.First(), a, x, z, y, b) && Fields(m', g2)
      && Read(m', g.base + FREE_OFFSET) == free + y.size && IsRing(m', g2.FreeRing()) && Safe(m, m', g)
  {
    var v := free + y.size;
    AddFreeIs(m, g.base, free, y.size);
    SplitCounter(m, g2, a, x, z, y, b, v);
    FieldOff(g2, g.base + FREE_OFFSET);
    RingKept(m, g2.FreeRing(), g.base + FREE_OFFSET, v);
    SafeField(m, g, g.base + FREE_OFFSET, v);
  }

  /** The taken node shrinks to what was asked for. */
  lemma SplitResize(m: seq<Byte>, g: Group, g2: Group, free: nat, a: seq<Block>, x: Block, z: Block, y: Block,
    b: seq<Block>, n: nat, size: nat)
    requires g.Tiled() && x.free && g.blocks == a + [x] + b && g2 == g.(blocks := a + [z, y] + b)
    requires IsCut(x.(free := false), z, y)
    requires Splitting(m, g.First(), a, x.(free := false), z, y, b) && g2.Tiled() && Fields(m, g2)
    requires Read(m, g.base + FREE_OFFSET) == free && IsRing(m, g2.FreeRing()) && n == g.First() + Span(a)
    requires size == z.size
    ensures n + 4 <= |m|
    ensures var m' := SetSize(m, n, size); Body(m', g2, free) && IsRing(m', g2.FreeRing()) && Safe(m, m', g)
  {
    var x1 := x.(free := false);
    HeaderInMemory(m, g, a, x, b);
    SetSizeIs(m, n, x1, size);
    SplitDone(m, g2, free, a, x1, z, y, b, n);
    assert x1.(size := size) == z;
    RingKept(m, g2.FreeRing(), n, Header(z));
    SafeHeader(m, g, a, x, b, n, Header(z));
  }

  /** The counter never wraps. */
  lemma FreeFits(g: Group)
    requires g.Tiled()
    ensures FreeBytes(g.blocks) < KERNEL_SIZE
  {
    Conservation(g.blocks);
  }

  /** The two ways an allocation is cut out of a FREE block. */
  lemma CutCases(a: seq<Block>, x: Block, b: seq<Block>, size: nat)
    requires x.free && MIN_SIZE <= size <= x.size
    ensures x.size - size >= NODE_SIZE ==>
      var z, y := Block(size, false), Block(x.size - size - HEADER_SIZE, true);
      IsCut(x.(free := false), z, y) && a + Cut(x.size, size) + b == a + [z, y] + b
    ensures x.size - size < NODE_SIZE ==> a + Cut(x.size, size) + b == a + [x.(free := false)] + b
  {
  }

  /** The group with the allocation cut out is as good as it was. */
  lemma CutValid(g: Group, g': Group, a: seq<Block>, x: Block, b: seq<Block>, size: nat)
    requires g.Valid() && g.blocks == a + [x] + b && x.free && MIN_SIZE <= size <= x.size
    requires g' == g.(blocks := a + Cut(x.size, size) + b)
    ensures g'.Valid()
  {
    CutBig(a, x, b, size);
    CutCoalesced(a, x, b, size);
    CutKeeps(g.First(), a, x, b, size);
  }

  /** list_empty on the free list. */
  lemma EmptyList(m: seq<Byte>, g: Group, size: nat)
    requires Rep(m, g)
    ensures g.Head() + LINK <= |m| && (Next(m, g.Head()) == g.Head() ==> NoFit(g.blocks, size))
  {
    RingBounds(m, g.FreeRing(), 0);
    if Next(m, g.Head()) == g.Head() {
      HeadOnce(m, g.FreeRing(), 1);
      NoLinksNoFree(g.First(), g.blocks);
    }
  }

  /** The new FREE node y counts. */
  lemma CountNew(m: seq<Byte>, g: Group, g2: Group, a: seq<Block>, x: Block, z: Block, y: Block, b: seq<Block>,
    n: nat, n': nat)
    requires g.Tiled() && x.free && g.blocks == a + [x] + b && g2 == g.(blocks := a + [z, y] + b)
    requires IsCut(x.(free := false), z, y)
    requires Splitting(m, g.First(), a, x.(free := false), z, y, b) && g2.Tiled() && Fields(m, g2)
    requires Read(m, g.base + FREE_OFFSET) == FreeBytes(a + [x.(free := false)] + b) && IsRing(m, g2.FreeRing())
    requires n == g.First() + Span(a) && n' == n + HEADER_SIZE + z.size
    ensures n' + 4 <= |m| && Size(m, n') == y.size && g.base + GROUP_SIZE <= |m|
    ensures var m' := AddFree(m, g.base, y.size);
      && Splitting(m', g.First(), a, x.(free := false), z, y, b) && Fields(m', g2) && Size(m', n) == x.size
      && Size(m', n') == y.size
      && Read(m', g.base + FREE_OFFSET) == FreeBytes(g2.blocks) && IsRing(m', g2.FreeRing()) && Safe(m, m', g)
  {
    var x1 := x.(free := false);
    HeaderInMemory(m, g, a, x, b);
    HeaderBits(y);
    HeaderBits(x1);
    SplitBytes(a, x1, z, y, b);
    FreeFits(g2);
    SplitCount(m, g, g2, FreeBytes(a + [x1] + b), a, x1, z, y, b);
  }

  // ---------- zeroing ----------

  /** A list_node of the free list lies outside every allocated block. */
  lemma AllocatedApart(g: Group, a: seq<Block>, x: Block, b: seq<Block>, k: nat)
    requires BigEnough(g.blocks) && g.blocks == a + [x] + b && !x.free && k < |g.FreeRing()|
    ensures var n, l := g.First() + Span(a), g.FreeRing()[k]; l + LINK <= n || n + HEADER_SIZE + x.size <= l
  {
    var n := g.First() + Span(a);
    BigParts(a, [x], b);
    var la, lb := Links(g.First(), a), Links(n + HEADER_SIZE + x.size, b);
    RingParts(g, a, x, b, la, n + HEADER_SIZE, lb);
    if 1 <= k <= |la| {
      LinksWithin(g.First(), a, la[k - 1]);
    } else if k > |la| {
      LinksWithin(n + HEADER_SIZE + x.size, b, lb[k - 1 - |la|]);
    }
  }

  /** memzero of the data handed out. */
  lemma ZeroStep(m: seq<Byte>, g: Group, a: seq<Block>, x: Block, b: seq<Block>, size: nat, d: nat)
    requires Rep(m, g) && g.blocks == a + [x] + b && !x.free && size <= x.size
    requires d == g.First() + Span(a) + HEADER_SIZE
    ensures d + size <= |m| && Rep(Zeroed(m, d, size), g)
  {
    HeaderInMemory(m, g, a, x, b);
    var m' := Zeroed(m, d, size);
    ZeroHeaders(m, m', g.First(), a, x, b, size, d);
    FieldsSame(m, m', g);
    ZeroRing(m, m', g, a, x, b, size, d);
  }

  lemma ZeroHeaders(m: seq<Byte>, m': seq<Byte>, at: nat, a: seq<Block>, x: Block, b: seq<Block>, size: nat, d: nat)
    requires Headers(m, at, a + [x] + b) && d == at + Span(a) + HEADER_SIZE && size <= x.size && d + size <= |m|
    requires m' == Zeroed(m, d, size)
    ensures Headers(m', at, a + [x] + b)
  {
    HeadersAround(m, at, a, x, b);
    HeadersAround(m', at, a, x, b);
    HeadersSame(m, m', at, a);
    HeadersSame(m, m', d + x.size, b);
  }

  lemma ZeroRing(m: seq<Byte>, m': seq<Byte>, g: Group, a: seq<Block>, x: Block, b: seq<Block>, size: nat, d: nat)
    requires Rep(m, g) && g.blocks == a + [x] + b && !x.free && size <= x.size
    requires d == g.First() + Span(a) + HEADER_SIZE && d + size <= |m| && m' == Zeroed(m, d, size)
    ensures IsRing(m', g.FreeRing())
  {
    forall k | 0 <= k < |g.FreeRing()| ensures Linked(m', g.FreeRing(), k) {
      assert Linked(m, g.FreeRing(), k);
      AllocatedApart(g, a, x, b, k);
    }
  }

  lemma ZeroSafe(m: seq<Byte>, g: Group, a: seq<Block>, x: Block, b: seq<Block>, size: nat, d: nat)
    requires g.Tiled() && g.End() <= |m| <= WORD && g.blocks == a + [x] + b && x.free && size <= x.size
    requires d == g.First() + Span(a) + HEADER_SIZE
    ensures d + size <= |m| && Safe(m, Zeroed(m, d, size), g)
  {
    HeaderInMemory(m, g, a, x, b);
    forall i | d <= i < d + size ensures !g.Kept(i) { BlockScratch(g, a, x, b, i); }
  }

  lemma ZeroAllocated(m: seq<Byte>, g: Group, g': Group, a: seq<Block>, x: Block, b: seq<Block>, size: nat, d: nat)
    requires g.Tiled() && Rep(m, g') && g.blocks == a + [x] + b && x.free && size <= x.size
    requires g' == g.(blocks := a + Cut(x.size, size) + b) && d == g.First() + Span(a) + HEADER_SIZE
    ensures d + size <= |m| && Rep(Zeroed(m, d, size), g') && Safe(m, Zeroed(m, d, size), g)
  {
    CutFirst(a, x.size, size, b);
    ZeroStep(m, g', a, Cut(x.size, size)[0], Cut(x.size, size)[1..] + b, size, d);
    ZeroSafe(m, g, a, x, b, size, d);
  }

  lemma CutFirst(a: seq<Block>, was: nat, size: nat, b: seq<Block>)
    requires size <= was
    ensures var c := Cut(was, size); a + c + b == a + [c[0]] + (c[1..] + b) && !c[0].free && size <= c[0].size
  {
    var c := Cut(was, size);
    assert c == [c[0]] + c[1..];
  }

  /** The walk meets the list head only at the end. */
  lemma HeadOnce(m: seq<Byte>, l: seq<nat>, k: nat)
    requires Spread(m, l) && 1 <= k <= |l| && l[0] == l[if k == |l| then 0 else k]
    ensures k == |l|
  {
    if k < |l| { NodesApart(m, l, 0, k); }
  }

  // ---------- release, write by write ----------

  /** Tagging x FREE. */
  lemma ReleaseTag(m: seq<Byte>, off: Group, on: Group, a: seq<Block>, x: Block, b: seq<Block>, n: nat)
    requires Rep(m, off) && off.blocks == a + [x] + b && !x.free && on == off.(blocks := a + [x.(free := true)] + b)
    requires n == off.First() + Span(a)
    ensures n + 4 <= |m|
    ensures var m' := SetTag(m, n, FREE);
      Body(m', on, FreeBytes(off.blocks)) && IsRing(m', off.FreeRing()) && Safe(m, m', on)
  {
    InsideOff(off, a, x, b, n);
    TagStep(m, off, on, on, off.FreeRing(), FreeBytes(off.blocks), a, x, b, x.(free := true), n);
    SetTagIs(m, n, x, FREE);
  }

  /** Counting it. */
  lemma ReleaseCounter(m: seq<Byte>, off: Group, on: Group, a: seq<Block>, x: Block, b: seq<Block>)
    requires Body(m, on, FreeBytes(off.blocks)) && IsRing(m, off.FreeRing()) && BigEnough(off.blocks)
    requires off.blocks == a + [x] + b && !x.free && on == off.(blocks := a + [x.(free := true)] + b)
    ensures var m' := AddFree(m, on.base, x.size);
      Body(m', on, FreeBytes(on.blocks)) && IsRing(m', off.FreeRing()) && Safe(m, m', on)
  {
    ReleaseKeeps(on.First(), a, x, b);
    FreeFits(on);
    AddFreeIs(m, on.base, FreeBytes(off.blocks), x.size);
    FieldOff(off, on.base + FREE_OFFSET);
    CounterStep(m, on, off.FreeRing(), FreeBytes(off.blocks), FreeBytes(on.blocks));
  }

  lemma MarkedSize(m: seq<Byte>, g: Group, free: int, a: seq<Block>, x: Block, b: seq<Block>)
    requires Body(m, g, free) && g.blocks == a + [x] + b
    ensures g.First() + Span(a) + 4 <= |m| && Size(m, g.First() + Span(a)) == x.size
  {
    HeaderInMemory(m, g, a, x, b);
    HeadersAround(m, g.First(), a, x, b);
    HeaderBits(x);
  }

  /** Counting it, as the code does, by the size in its header. */
  lemma MarkCount(m: seq<Byte>, off: Group, on: Group, a: seq<Block>, x: Block, b: seq<Block>)
    requires Body(m, on, FreeBytes(off.blocks)) && IsRing(m, off.FreeRing()) && BigEnough(off.blocks)
    requires off.blocks == a + [x] + b && !x.free && on == off.(blocks := a + [x.(free := true)] + b)
    ensures on.First() + Span(a) + 4 <= |m| && on.base + GROUP_SIZE <= |m|
    ensures var m' := AddFree(m, on.base, Size(m, on.First() + Span(a)));
      Body(m', on, FreeBytes(on.blocks)) && IsRing(m', off.FreeRing()) && Safe(m, m', on)
  {
    ReleaseCounter(m, off, on, a, x, b);
    MarkedSize(m, on, FreeBytes(off.blocks), a, x.(free := true), b);
  }

  /** Which nodes of the free list come before x. */
  lemma BeforeOrAfter(off: Group, a: seq<Block>, x: Block, b: seq<Block>, k: nat)
    requires BigEnough(off.blocks) && off.blocks == a + [x] + b && !x.free && 1 <= k < |off.FreeRing()|
    ensures off.FreeRing()[k] > off.First() + Span(a) + HEADER_SIZE <==> k >= Position(off, a)
  {
    var n := off.First() + Span(a);
    BigParts(a, [x], b);
    var la, lb := Links(off.First(), a), Links(n + HEADER_SIZE + x.size, b);
    RingParts(off, a, x, b, la, n + HEADER_SIZE, lb);
    if k <= |la| {
      LinksWithin(off.First(), a, la[k - 1]);
    } else {
      LinksWithin(n + HEADER_SIZE + x.size, b, lb[k - 1 - |la|]);
    }
  }

  /** Linking it in front of the first node with a higher address. */
  lemma ReleaseLink(m: seq<Byte>, off: Group, on: Group, free: int, a: seq<Block>, x: Block, b: seq<Block>, n: nat,
    next: nat)
    requires Body(m, on, free) && IsRing(m, off.FreeRing()) && off.blocks == a + [x] + b && !x.free
    requires on == off.(blocks := a + [x.(free := true)] + b) && n == on.First() + Span(a) + HEADER_SIZE
    requires Position(on, a) <= |off.FreeRing()| && next == off.FreeRing()[Succ(off.FreeRing(), Position(on, a) - 1)]
    ensures n + LINK <= |m| && n < WORD && next + LINK <= |m| && next < WORD && Prev(m, next) + LINK <= |m|
    ensures var m' := AddBetween(m, Prev(m, next), n, next);
      Body(m', on, free) && IsRing(m', on.FreeRing()) && Safe(m, m', on)
  {
    var l, k := off.FreeRing(), Position(on, a);
    RingBounds(m, l, k - 1);
    RingBounds(m, l, Succ(l, k - 1));
    assert Pred(l, Succ(l, k - 1)) == k - 1;
    assert x.(free := false) == x;
    Link(m, on, off, a, x, b, n);
    RelinkBody(m, AddBetween(m, l[k - 1], n, l[Succ(l, k - 1)]), on, on, free);
  }

  /** What is known of the blocks before a released one. */
  lemma ReleasedPrefix(g: Group, on: Group, a: seq<Block>, x: Block, b: seq<Block>)
    requires Coalesced(g.blocks) && g.blocks == a + [x] + b && on == g.(blocks := a + [x.(free := true)] + b)
    ensures |a| < |on.blocks| && on.blocks[|a|].free && Coalesced(on.blocks[..|a|]) && Span(on.blocks[..|a|]) == Span(a)
  {
    assert g.blocks[..|a|] == a && on.blocks[..|a|] == a;
    CoalescedPrefix(g.blocks, |a|);
  }

  /** The live allocations after freeing the one at addr. */
  lemma ReleasedLive(g: Group, on: Group, g': Group, a: seq<Block>, x: Block, b: seq<Block>, addr: nat)
    requires BigEnough(g.blocks) && g.blocks == a + [x] + b && !x.free && on == g.(blocks := a + [x.(free := true)] + b)
    requires Live(on.First(), g'.blocks) == Live(on.First(), on.blocks)
    requires addr == g.First() + Span(a) + HEADER_SIZE
    ensures Live(g.First(), g'.blocks) == Live(g.First(), a) + Live(addr + x.size, b)
  {
    ReleaseKeeps(g.First(), a, x, b);
  }

  /** Two merges in a row. */
  lemma MergedTwice(m0: seq<Byte>, m1: seq<Byte>, m2: seq<Byte>, g: Group, g1: Group, g': Group)
    requires g1 == g.(blocks := g1.blocks) && g' == g1.(blocks := g'.blocks)
    requires Live(g.First(), g1.blocks) == Live(g.First(), g.blocks)
    requires Live(g1.First(), g'.blocks) == Live(g1.First(), g1.blocks)
    requires Safe(m0, m1, g) && Safe(m1, m2, g1)
    ensures g' == g.(blocks := g'.blocks) && Live(g.First(), g'.blocks) == Live(g.First(), g.blocks) && Safe(m0, m2, g)
  {
    SafeSameLive(m1, m2, g, g1);
    SafeChain(m0, m1, m2, g);
  }

  /** Two steps that keep what on keeps, keep what a group with the same live allocations keeps. */
  lemma SafeTwice(m0: seq<Byte>, m1: seq<Byte>, m2: seq<Byte>, g': Group, on: Group)
    requires Safe(m0, m1, on) && Safe(m1, m2, on) && on == g'.(blocks := on.blocks)
    requires Live(on.First(), g'.blocks) == Live(on.First(), on.blocks)
    ensures Safe(m0, m2, g')
  {
    SafeSameLive(m0, m1, g', on);
    SafeSameLive(m1, m2, g', on);
  }

  // ---------- merging, write by write ----------

  lemma Regroup(a: seq<Block>, p: Block, x: Block, b: seq<Block>)
    ensures (a + [p]) + [x] + b == a + [p, x] + b && Span(a + [p]) == Span(a) + HEADER_SIZE + p.size
  {
    SumsConcat(a, [p]);
    Single(0, p);
  }

  /** Taking x out of the free list. */
  lemma JoinUnlink(m: seq<Byte>, g: Group, g': Group, a: seq<Block>, p: Block, x: Block, b: seq<Block>, n: nat)
    requires Rep(m, g) && g.blocks == a + [p, x] + b && p.free && x.free
    requires g' == g.(blocks := a + [Block(p.size + x.size + HEADER_SIZE, true)] + b)
    requires n == g.First() + Span(a) + HEADER_SIZE + p.size + HEADER_SIZE
    ensures n + LINK <= |m| && n < WORD && Prev(m, n) + LINK <= |m| && Next(m, n) + LINK <= |m| && Apart(Prev(m, n), n)
    ensures Apart(Next(m, n), n)
    ensures Body(Del(m, n), g, FreeBytes(g.blocks)) && Safe(m, Del(m, n), g)
    ensures IsRing(Del(m, n), g'.FreeRing())
  {
    var off := g.(blocks := (a + [p]) + [x.(free := false)] + b);
    Regroup(a, p, x, b);
    Regroup(a, p, x.(free := false), b);
    assert x.(free := true) == x;
    Unlink(m, g, off, a + [p], x, b, n);
    RelinkBody(m, Del(m, n), g, g, FreeBytes(g.blocks));
    GrownRing(g, a, p, x, b);
  }

  /** The sizes of two touching nodes. */
  lemma JoinSizes(m: seq<Byte>, g: Group, free: int, a: seq<Block>, p: Block, x: Block, b: seq<Block>, n: nat, n': nat)
    requires Body(m, g, free) && g.blocks == a + [p, x] + b && p.free && x.free
    requires n == g.First() + Span(a) && n' == n + HEADER_SIZE + p.size
    ensures n' + HEADER_SIZE + x.size <= |m| && Read(m, n) == Header(p) && Size(m, n) == p.size && Size(m, n') == x.size
    ensures p.size + x.size < KERNEL_SIZE
  {
    AroundTwo(g.First(), a, p, x, b);
    HeadersAroundTwo(m, g.First(), a, p, x, b);
    HeaderBits(p);
    HeaderBits(x);
  }

  /** Growing p over it. */
  lemma JoinGrow(m: seq<Byte>, g: Group, g': Group, a: seq<Block>, p: Block, x: Block, b: seq<Block>, n: nat, v: nat)
    requires g.blocks == a + [p, x] + b && p.free && x.free
    requires g' == g.(blocks := a + [Block(p.size + x.size + HEADER_SIZE, true)] + b)
    requires Body(m, g, FreeBytes(g.blocks)) && IsRing(m, g'.FreeRing()) && n == g.First() + Span(a)
    requires v == p.size + x.size + HEADER_SIZE
    requires n + 4 <= |m| && Read(m, n) == Header(p) && p.size + x.size < KERNEL_SIZE
    ensures var m' := SetSize(m, n, v); Body(m', g', FreeBytes(g.blocks)) && IsRing(m', g'.FreeRing()) && Safe(m, m', g)
  {
    var y := Block(v, true);
    SetSizeIs(m, n, p, v);
    assert p.(size := v) == y;
    JoinWrite(m, g, g', FreeBytes(g.blocks), a, p, x, b, y, n);
  }

  lemma JoinWrite(m: seq<Byte>, g: Group, g': Group, free: int, a: seq<Block>, p: Block, x: Block, b: seq<Block>,
    y: Block, n: nat)
    requires p.free && x.free && y == Block(p.size + x.size + HEADER_SIZE, true)
    requires g.blocks == a + [p, x] + b && g' == g.(blocks := a + [y] + b) && Body(m, g, free)
    requires IsRing(m, g'.FreeRing()) && n == g.First() + Span(a) && n + 4 <= |m| && Header(y) < WORD
    ensures var m' := Write(m, n, Header(y)); Body(m', g', free) && IsRing(m', g'.FreeRing()) && Safe(m, m', g)
  {
    GrowBody(m, g, g', free, a, p, x, b, y, n);
    RingKept(m, g'.FreeRing(), n, Header(y));
    assert g.blocks == a + [p] + ([x] + b);
    SafeHeader(m, g, a, p, [x] + b, n, Header(y));
  }

  /** Counting the header it gives back. */
  lemma JoinCounter(m: seq<Byte>, g: Group, g': Group, a: seq<Block>, p: Block, x: Block, b: seq<Block>)
    requires g.Tiled() && g.blocks == a + [p, x] + b && p.free && x.free
    requires g' == g.(blocks := a + [Block(p.size + x.size + HEADER_SIZE, true)] + b)
    requires Body(m, g', FreeBytes(g.blocks)) && IsRing(m, g'.FreeRing())
    ensures var m' := AddFree(m, g.base, HEADER_SIZE); Rep(m', g') && Safe(m, m', g')
  {
    JoinKeeps(g.First(), a, p, x, b);
    FreeFits(g');
    AddFreeIs(m, g.base, FreeBytes(g.blocks), HEADER_SIZE);
    FieldOff(g', g.base + FREE_OFFSET);
    CounterStep(m, g', g'.FreeRing(), FreeBytes(g.blocks), FreeBytes(g'.blocks));
  }

  /** Safety depends on the live allocations only. */
  lemma SafeSameLive(m: seq<Byte>, m': seq<Byte>, g: Group, g': Group)
    requires Safe(m, m', g') && g' == g.(blocks := g'.blocks) && Live(g.First(), g'.blocks) == Live(g.First(), g.blocks)
    ensures Safe(m, m', g)
  {
    forall b | 0 <= b < |m| && g.Kept(b) ensures m'[b] == m[b] { assert g'.Kept(b); }
  }

  // ---------- the neighbours of a node in the free list ----------

  /** Where the free list of x's group starts and ends, and whom x points at. */
  lemma RingPosition(m: seq<Byte>, g: Group, a: seq<Block>, x: Block, b: seq<Block>, n: nat)
    requires Rep(m, g) && g.blocks == a + [x] + b && x.free && n == g.First() + Span(a) + HEADER_SIZE
    ensures var l, k := g.FreeRing(), Position(g, a);
      && k < |l| && n == l[k] && n + LINK <= |m| && Prev(m, n) == l[k - 1] && Next(m, n) == l[Succ(l, k)]
      && (Next(m, g.Head()) == n <==> Links(g.First(), a) == [])
      && (Prev(m, g.Head()) == n <==> Links(n + x.size, b) == [])
      && Prev(m, n) >= HEADER_SIZE && Next(m, n) >= HEADER_SIZE
  {
    var l, k := g.FreeRing(), Position(g, a);
    RingParts(g, a, x, b, Links(g.First(), a), n, Links(n + x.size, b));
    RingBounds(m, l, k);
    RingBounds(m, l, 0);
    NodesApart(m, l, 1, k);
    NodesApart(m, l, |l| - 1, k);
    forall i | 0 <= i < |l| ensures l[i] >= HEADER_SIZE {
      if i > 0 { assert l[i] == Links(g.First(), g.blocks)[i - 1]; LinksWithin(g.First(), g.blocks, l[i]); }
    }
  }

  /** The node before x in the free list is the last FREE block before it. */
  lemma PrevInList(g: Group, a: seq<Block>, x: Block, b: seq<Block>, j: nat)
    requires g.blocks == a + [x] + b && x.free && j < |a|
    requires Links(g.First(), a) == Links(g.First(), a[..j]) + [g.First() + Span(a[..j]) + HEADER_SIZE]
    ensures Position(g, a) < |g.FreeRing()|
    ensures g.FreeRing()[Position(g, a) - 1] == g.First() + Span(a[..j]) + HEADER_SIZE
    ensures g.blocks[j] == a[j] && g.blocks[..j] == a[..j]
  {
    var n := g.First() + Span(a) + HEADER_SIZE;
    RingParts(g, a, x, b, Links(g.First(), a), n, Links(n + x.size, b));
  }

  /** The node after x in the free list is the first FREE block after it. */
  lemma NextInList(g: Group, a: seq<Block>, x: Block, b: seq<Block>, j: nat, rest: nat)
    requires g.blocks == a + [x] + b && x.free && j < |b| && b[j].free
    requires rest == g.First() + Span(a) + HEADER_SIZE + x.size
    requires Links(rest, b) != [] && Links(rest, b)[0] == rest + Span(b[..j]) + HEADER_SIZE
    ensures var k, i := Position(g, a), |a| + 1 + j;
      && k + 1 < |g.FreeRing()| && g.FreeRing()[Succ(g.FreeRing(), k)] == g.First() + Span(g.blocks[..i]) + HEADER_SIZE
      && i < |g.blocks| && g.blocks[i].free
  {
    var n, la, lb := g.First() + Span(a) + HEADER_SIZE, Links(g.First(), a), Links(rest, b);
    RingPartsAt(g, a, x, b, la, n, rest, lb);
    AfterNode(g.Head(), la, n, lb);
    assert g.blocks[..|a| + 1 + j] == a + [x] + b[..j];
    SpanAround(a, x, b[..j]);
  }

  lemma AfterNode(h: nat, la: seq<nat>, n: nat, lb: seq<nat>)
    requires lb != []
    ensures var l, k := [h] + (la + [n] + lb), 1 + |la|; k + 1 < |l| && Succ(l, k) == k + 1 && l[k + 1] == lb[0]
  {
  }

  lemma SpanAround(a: seq<Block>, x: Block, b: seq<Block>)
    ensures Span(a + [x] + b) == Span(a) + HEADER_SIZE + x.size + Span(b)
  {
    Around(0, a, x, b);
  }

  /** Past a FREE block the free list is shorter. */
  lemma FewerLinks(b: seq<Block>, j: nat)
    requires j < |b| && b[j].free
    ensures |Links(0, b[j + 1..])| < |Links(0, b)|
  {
    assert b == b[..j] + [b[j]] + b[j + 1..];
    Around(0, b[..j], b[j], b[j + 1..]);
    LinksCount(Span(b[..j]) + HEADER_SIZE + b[j].size, 0, b[j + 1..]);
  }

  /** How many FREE blocks there are does not depend on where they lie. */
  lemma {:induction false} LinksCount(at: nat, at': nat, bs: seq<Block>)
    ensures |Links(at, bs)| == |Links(at', bs)|
    decreases |bs|
  {
    if bs != [] { LinksCount(at + HEADER_SIZE + bs[0].size, at' + HEADER_SIZE + bs[0].size, bs[1..]); }
  }

  /** What merge_free_node sees on the side of lower addresses: node is first in the list, or the FREE block j is
      before it. */
  lemma LookBack(m: seq<Byte>, g: Group, i: nat, node: nat) returns (j: nat)
    requires Rep(m, g) && i < |g.blocks| && g.blocks[i].free && node == g.First() + Span(g.blocks[..i])
    ensures node + HEADER_SIZE + LINK <= |m| && Prev(m, node + HEADER_SIZE) >= HEADER_SIZE
    ensures Next(m, g.Head()) == node + HEADER_SIZE ==> forall k | 0 <= k < i :: !g.blocks[k].free
    ensures Next(m, g.Head()) != node + HEADER_SIZE ==>
      var prev := Prev(m, node + HEADER_SIZE) - HEADER_SIZE;
      && j < i && g.blocks[j].free && (forall k | j < k < i :: !g.blocks[k].free)
      && prev == g.First() + Span(g.blocks[..j]) && prev + 4 <= |m|
      && (prev + Size(m, prev) + HEADER_SIZE == node <==> j + 1 == i)
  {
    var a, x, b := g.blocks[..i], g.blocks[i], g.blocks[i + 1..];
    assert g.blocks == a + [x] + b;
    RingPosition(m, g, a, x, b, node + HEADER_SIZE);
    NoLinksNoFree(g.First(), a);
    j := 0;
    if Next(m, g.Head()) != node + HEADER_SIZE {
      j := LastFree(g.First(), a);
      PrevInList(g, a, x, b, j);
      TouchIff(a, j);
      ReadHeader(m, g, j);
      HeaderBits(a[j]);
    }
  }

  /** The blocks up to the FREE block k of b, and those after it. */
  lemma PrefixThrough(bs: seq<Block>, a: seq<Block>, x: Block, b: seq<Block>, k: nat)
    requires bs == a + [x] + b && k < |b| && b[k].free && Coalesced(a) && (a != [] ==> !a[|a| - 1].free)
    requires forall i | 0 <= i < k :: !b[i].free
    ensures Coalesced(bs[..|a| + 1 + k]) && |Links(0, bs[|a| + 2 + k..])| < |Links(0, b)|
  {
    FewerLinks(b, k);
    CoalescedThrough(a, x, b[..k]);
    assert bs[..|a| + 1 + k] == a + [x] + b[..k] && bs[|a| + 2 + k..] == b[k + 1..];
  }

  /** The FREE block after x. */
  lemma NextFree(g: Group, i: nat, a: seq<Block>, x: Block, b: seq<Block>, rest: nat) returns (j: nat)
    requires g.blocks == a + [x] + b && i == |a| && x.free && Coalesced(a) && (a != [] ==> !a[|a| - 1].free)
    requires rest == g.First() + Span(a) + HEADER_SIZE + x.size && Links(rest, b) != []
    ensures i < j < |g.blocks| && g.blocks[j].free && Coalesced(g.blocks[..j])
    ensures |Links(0, g.blocks[j + 1..])| < |Links(0, b)|
    ensures Position(g, a) + 1 < |g.FreeRing()|
    ensures g.FreeRing()[Succ(g.FreeRing(), Position(g, a))] == g.First() + Span(g.blocks[..j]) + HEADER_SIZE
  {
    var k := FirstFree(rest, b);
    NextInList(g, a, x, b, k, rest);
    j := i + 1 + k;
    PrefixThrough(g.blocks, a, x, b, k);
  }

  lemma TwoParts(bs: seq<Block>, j: nat)
    requires j + 1 < |bs|
    ensures bs == bs[..j] + [bs[j], bs[j + 1]] + bs[j + 2..]
  {
  }

  /** Two touching FREE blocks. */
  lemma TouchingParts(bs: seq<Block>, i: nat, j: nat)
    requires j + 1 == i < |bs| && Coalesced(bs[..i]) && bs[j].free
    ensures bs == bs[..j] + [bs[j], bs[i]] + bs[i + 1..] && Span(bs[..i]) == Span(bs[..j]) + HEADER_SIZE + bs[j].size
    ensures Coalesced(bs[..j]) && (j > 0 ==> !bs[j - 1].free)
  {
    TwoParts(bs, j);
    assert bs[..i] == bs[..j] + [bs[j]] && bs[..i][..j] == bs[..j];
    CoalescedPrefix(bs[..i], j);
    SumsConcat(bs[..j], [bs[j]]);
    Single(0, bs[j]);
  }

  /** And on the other side: node is last in the list and the group is coalesced, or the FREE block j is next. */
  lemma LookAhead(m: seq<Byte>, g: Group, i: nat, node: nat) returns (j: nat)
    requires Rep(m, g) && i < |g.blocks| && g.blocks[i].free && node == g.First() + Span(g.blocks[..i])
    requires Coalesced(g.blocks[..i]) && (i > 0 ==> !g.blocks[i - 1].free)
    ensures node + HEADER_SIZE + LINK <= |m| && Next(m, node + HEADER_SIZE) >= HEADER_SIZE
    ensures Prev(m, g.Head()) == node + HEADER_SIZE ==> Coalesced(g.blocks)
    ensures Prev(m, g.Head()) != node + HEADER_SIZE ==>
      && i < j < |g.blocks| && g.blocks[j].free && Coalesced(g.blocks[..j])
      && Next(m, node + HEADER_SIZE) - HEADER_SIZE == g.First() + Span(g.blocks[..j])
      && |Links(0, g.blocks[j + 1..])| < |Links(0, g.blocks[i + 1..])|
  {
    var a, x, b := g.blocks[..i], g.blocks[i], g.blocks[i + 1..];
    Parts(g.blocks, i);
    var n := node + HEADER_SIZE;
    RingPosition(m, g, a, x, b, n);
    j := i;
    if Prev(m, g.Head()) == n {
      LastInList(g, a, x, b, n + x.size);
    } else {
      j := NextFree(g, i, a, x, b, n + x.size);
    }
  }

  /** With no FREE block after x, the group is coalesced. */
  lemma LastInList(g: Group, a: seq<Block>, x: Block, b: seq<Block>, rest: nat)
    requires g.blocks == a + [x] + b && Links(rest, b) == [] && Coalesced(a) && (a != [] ==> !a[|a| - 1].free)
    ensures Coalesced(g.blocks)
  {
    NoLinksNoFree(rest, b);
    CoalescedThrough(a, x, b);
  }

  // ---------- a new group ----------

  function NewGroup(base: nat, pages: nat): Group
    requires pages > 0
  {
    Group(base, pages, [Block(pages * PAGE_SIZE - GROUP_SIZE - HEADER_SIZE, true)])
  }

  lemma NewGroupValid(base: nat, pages: nat)
    requires 0 < pages && pages * PAGE_SIZE <= KERNEL_SIZE && base + pages * PAGE_SIZE <= WORD
    ensures NewGroup(base, pages).Valid() && Live(base + GROUP_SIZE, NewGroup(base, pages).blocks) == []
    ensures FreeBytes(NewGroup(base, pages).blocks) == NewGroup(base, pages).Capacity()
    ensures NewGroup(base, pages).FreeRing() == [base + FREE_HEAD_OFFSET, base + GROUP_SIZE + HEADER_SIZE]
  {
    Single(base + GROUP_SIZE, NewGroup(base, pages).blocks[0]);
  }

  /** Only bytes of the group differ. */
  ghost predicate OnlyIn(m: seq<Byte>, m': seq<Byte>, lo: nat, hi: nat) {
    |m'| == |m| && forall b {:trigger m'[b]} | 0 <= b < |m| && !(lo <= b < hi) :: m'[b] == m[b]
  }

  /** A new group once its fields, its node and its empty list are written, and after list_add. */
  lemma NewGroupRep(m: seq<Byte>, base: nat, pages: nat)
    requires 0 < pages && pages * PAGE_SIZE <= KERNEL_SIZE && base + pages * PAGE_SIZE <= |m| <= WORD
    requires Read(m, base) == NewGroup(base, pages).Capacity() == Read(m, base + FREE_OFFSET)
    requires Read(m, base + 4) == pages
    requires Read(m, base + GROUP_SIZE) == Header(NewGroup(base, pages).blocks[0])
    requires Next(m, base + FREE_HEAD_OFFSET) == base + FREE_HEAD_OFFSET == Prev(m, base + FREE_HEAD_OFFSET)
    ensures var h, n := base + FREE_HEAD_OFFSET, base + GROUP_SIZE + HEADER_SIZE;
      Rep(AddBetween(m, h, n, h), NewGroup(base, pages))
        && OnlyIn(m, AddBetween(m, h, n, h), base, base + pages * PAGE_SIZE)
  {
    var g, h, n := NewGroup(base, pages), base + FREE_HEAD_OFFSET, base + GROUP_SIZE + HEADER_SIZE;
    NewGroupValid(base, pages);
    NewGroupRing(m, h, n);
    RelinkBody(m, AddBetween(m, h, n, h), g, g, FreeBytes(g.blocks));
  }

  /** The first node of an empty list. */
  lemma NewGroupRing(m: seq<Byte>, h: nat, n: nat)
    requires h + LINK <= n && n + LINK <= |m| <= WORD && Next(m, h) == h == Prev(m, h)
    ensures IsRing(AddBetween(m, h, n, h), [h, n]) && OnlyLinks(m, AddBetween(m, h, n, h), [h, n])
  {
    assert Linked(m, [h], 0);
    AddBetweenRing(m, [h], 0, n);
    assert Insert([h], 1, n) == [h, n];
    AddOnlyLinks(m, [h, n], h, n, h);
  }
}
