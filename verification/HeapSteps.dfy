/** What the writes of allocating, freeing and merging do to the memory image of a group. */
module HeapSteps {
  import opened Memory
  import opened Ring
  import opened HeapLayout
  import opened HeapMemory

  /** The image of a group but for its free list, with the counter at free. */
  ghost predicate Body(m: seq<Byte>, g: Group, free: int) {
    g.Tiled() && Fields(m, g) && Read(m, g.base + FREE_OFFSET) == free && Headers(m, g.First(), g.blocks)
  }

  lemma FieldsSame(m: seq<Byte>, m': seq<Byte>, g: Group)
    requires Fields(m, g) && |m'| == |m| && Read(m', g.base) == Read(m, g.base)
    requires Read(m', g.base + 4) == Read(m, g.base + 4)
    ensures Fields(m', g)
  {
  }

  lemma FieldsWrite(m: seq<Byte>, g: Group, w: nat, v: Word)
    requires Fields(m, g) && g.First() <= w && w + 4 <= |m|
    ensures Fields(Write(m, w, v), g) && Read(Write(m, w, v), g.base + FREE_OFFSET) == Read(m, g.base + FREE_OFFSET)
  {
  }

  lemma SameSizes(a: seq<Block>, x: Block, b: seq<Block>, x': Block)
    requires x'.size == x.size
    ensures var bs, bs' := a + [x] + b, a + [x'] + b;
      |bs'| == |bs| && (forall i | 0 <= i < |bs| :: bs'[i].size == bs[i].size) && (BigEnough(bs) <==> BigEnough(bs'))
      && Span(bs') == Span(bs)
  {
    Around(0, a, x, b);
    Around(0, a, x', b);
    var bs, bs' := a + [x] + b, a + [x'] + b;
    assert forall i | 0 <= i < |bs| :: bs'[i].size == bs[i].size;
  }

  lemma TiledSame(g: Group, a: seq<Block>, x: Block, b: seq<Block>, x': Block)
    requires g.Tiled() && g.blocks == a + [x] + b && x'.size == x.size
    ensures g.(blocks := a + [x'] + b).Tiled()
  {
    SameSizes(a, x, b, x');
  }

  lemma HeaderInMemory(m: seq<Byte>, g: Group, a: seq<Block>, x: Block, b: seq<Block>)
    requires g.Tiled() && g.End() <= |m| <= WORD && g.blocks == a + [x] + b
    ensures g.First() + Span(a) + NODE_SIZE <= g.First() + Span(a) + HEADER_SIZE + x.size <= g.End() <= |m|
    ensures Header(x.(free := false)) < WORD && MIN_SIZE <= x.size < KERNEL_SIZE
  {
    Around(g.First(), a, x, b);
    assert g.blocks[|a|] == x;
  }

  // ---------- single writes ----------

  lemma WriteCounter(m: seq<Byte>, g: Group, free: int, v: Word)
    requires Body(m, g, free)
    ensures Body(Write(m, g.base + FREE_OFFSET, v), g, v) && Off(g.FreeRing(), g.base + FREE_OFFSET)
  {
    HeadersSame(m, Write(m, g.base + FREE_OFFSET, v), g.First(), g.blocks);
    FieldsSame(m, Write(m, g.base + FREE_OFFSET, v), g);
    FieldOff(g, g.base + FREE_OFFSET);
  }

  lemma RewriteHeaders(m: seq<Byte>, at: nat, a: seq<Block>, x: Block, b: seq<Block>, x': Block)
    requires Headers(m, at, a + [x] + b) && x'.size == x.size && Header(x') < WORD && at + Span(a) + 4 <= |m|
    ensures Headers(Write(m, at + Span(a), Header(x')), at, a + [x'] + b)
  {
    var n := at + Span(a);
    var m' := Write(m, n, Header(x'));
    HeadersAround(m, at, a, x, b);
    HeadersAround(m', at, a, x', b);
    HeadersSame(m, m', at, a);
    HeadersSame(m, m', n + HEADER_SIZE + x.size, b);
  }

  /** A write to the header of x, which keeps its size. */
  lemma WriteHeader(m: seq<Byte>, g: Group, g': Group, free: int, a: seq<Block>, x: Block, b: seq<Block>, x': Block,
    n: nat)
    requires Body(m, g, free) && g.blocks == a + [x] + b && x'.size == x.size && Header(x') < WORD
    requires n == g.First() + Span(a) && n + 4 <= |m| && g' == g.(blocks := a + [x'] + b)
    ensures Body(Write(m, n, Header(x')), g', free)
  {
    TiledSame(g, a, x, b, x');
    RewriteHeaders(m, g.First(), a, x, b, x');
    FieldsWrite(m, g, n, Header(x'));
  }

  /** A write to the data of an allocated block. */
  lemma WriteInside(m: seq<Byte>, g: Group, free: int, a: seq<Block>, x: Block, b: seq<Block>, w: nat, v: Word)
    requires Body(m, g, free) && g.blocks == a + [x] + b && !x.free
    requires g.First() + Span(a) + HEADER_SIZE <= w && w + 4 <= g.First() + Span(a) + HEADER_SIZE + x.size
    requires w + 4 <= |m|
    ensures Body(Write(m, w, v), g, free) && Off(g.FreeRing(), w)
  {
    var n := g.First() + Span(a);
    var m' := Write(m, w, v);
    HeadersAround(m, g.First(), a, x, b);
    HeadersAround(m', g.First(), a, x, b);
    HeadersSame(m, m', g.First(), a);
    HeadersSame(m, m', n + HEADER_SIZE + x.size, b);
    FieldsWrite(m, g, w, v);
    InsideOff(g, a, x, b, w);
  }

  // ---------- list operations ----------

  lemma {:induction false} ClearSizes(at: nat, bs: seq<Block>, bs': seq<Block>, l: seq<nat>)
    requires |bs'| == |bs| && (forall i | 0 <= i < |bs| :: bs'[i].size == bs[i].size) && Clear(at, bs, l)
    ensures Clear(at, bs', l)
    decreases |bs|
  {
    if bs != [] { ClearSizes(at + HEADER_SIZE + bs[0].size, bs[1..], bs'[1..], l); }
  }

  lemma FieldsOnlyLinks(m: seq<Byte>, m': seq<Byte>, g: Group)
    requires Fields(m, g) && OnlyLinks(m, m', g.FreeRing()) && BigEnough(g.blocks)
    ensures Fields(m', g) && Read(m', g.base + FREE_OFFSET) == Read(m, g.base + FREE_OFFSET)
  {
    FieldOff(g, g.base);
    FieldOff(g, g.base + 4);
    FieldOff(g, g.base + FREE_OFFSET);
  }

  /** Rearranging the free list of on, which has the same block sizes as g. */
  lemma RelinkBody(m: seq<Byte>, m': seq<Byte>, g: Group, on: Group, free: int)
    requires Body(m, g, free) && OnlyLinks(m, m', on.FreeRing()) && BigEnough(on.blocks)
    requires on == g.(blocks := on.blocks) && |on.blocks| == |g.blocks|
    requires forall i | 0 <= i < |g.blocks| :: on.blocks[i].size == g.blocks[i].size
    ensures Body(m', g, free)
  {
    GroupClear(on);
    ClearSizes(g.First(), on.blocks, g.blocks, on.FreeRing());
    HeadersClear(m, m', g.First(), g.blocks, on.FreeRing());
    FieldsOnlyLinks(m, m', on);
  }

  /** The position of a block's list_node in the ring. */
  function Position(g: Group, a: seq<Block>): nat { 1 + |Links(g.First(), a)| }

  /** The free list is the links before the block, its own and those after it. */
  lemma RingParts(g: Group, a: seq<Block>, x: Block, b: seq<Block>, la: seq<nat>, n: nat, lb: seq<nat>)
    requires g.blocks == a + [x] + b
    requires la == Links(g.First(), a) && n == g.First() + Span(a) + HEADER_SIZE && lb == Links(n + x.size, b)
    ensures g.FreeRing() == [g.Head()] + (la + (if x.free then [n] else []) + lb)
  {
    RingPartsAt(g, a, x, b, la, n, n + x.size, lb);
  }

  lemma RingPartsAt(g: Group, a: seq<Block>, x: Block, b: seq<Block>, la: seq<nat>, n: nat, rest: nat, lb: seq<nat>)
    requires g.blocks == a + [x] + b && rest == n + x.size
    requires la == Links(g.First(), a) && n == g.First() + Span(a) + HEADER_SIZE && lb == Links(rest, b)
    ensures g.FreeRing() == [g.Head()] + (la + (if x.free then [n] else []) + lb)
  {
    Around(g.First(), a, x, b);
  }

  /** With x in it and without. */
  lemma RingPartsBoth(on: Group, off: Group, a: seq<Block>, x: Block, b: seq<Block>, la: seq<nat>, n: nat, lb: seq<nat>)
    requires on.blocks == a + [x.(free := true)] + b && off == on.(blocks := a + [x.(free := false)] + b)
    requires la == Links(on.First(), a) && n == on.First() + Span(a) + HEADER_SIZE && lb == Links(n + x.size, b)
    ensures on.FreeRing() == [on.Head()] + (la + [n] + lb) && off.FreeRing() == [on.Head()] + (la + [] + lb)
  {
    RingParts(on, a, x.(free := true), b, la, n, lb);
    RingParts(off, a, x.(free := false), b, la, n, lb);
  }

  lemma SplicedRemove(h: nat, la: seq<nat>, n: nat, lb: seq<nat>)
    ensures var on, k := [h] + (la + [n] + lb), 1 + |la|;
      k < |on| && on[k] == n && [h] + (la + [] + lb) == Remove(on, k)
  {
  }

  lemma SplicedInsert(h: nat, la: seq<nat>, n: nat, lb: seq<nat>)
    ensures var off, k := [h] + (la + [] + lb), 1 + |la|;
      k <= |off| && [h] + (la + [n] + lb) == Insert(off, k, n)
  {
  }

  /** Taking the block x out of the free list. */
  lemma RingWithout(on: Group, off: Group, a: seq<Block>, x: Block, b: seq<Block>)
    requires on.blocks == a + [x.(free := true)] + b && off == on.(blocks := a + [x.(free := false)] + b)
    ensures var k := Position(on, a);
      k < |on.FreeRing()| && on.FreeRing()[k] == on.First() + Span(a) + HEADER_SIZE
        && off.FreeRing() == Remove(on.FreeRing(), k)
  {
    var n := on.First() + Span(a) + HEADER_SIZE;
    var la, lb := Links(on.First(), a), Links(n + x.size, b);
    RingPartsBoth(on, off, a, x, b, la, n, lb);
    SplicedRemove(on.Head(), la, n, lb);
  }

  /** Putting it in. */
  lemma RingWith(on: Group, off: Group, a: seq<Block>, x: Block, b: seq<Block>)
    requires on.blocks == a + [x.(free := true)] + b && off == on.(blocks := a + [x.(free := false)] + b)
    ensures var k := Position(on, a);
      k <= |off.FreeRing()| && on.FreeRing() == Insert(off.FreeRing(), k, on.First() + Span(a) + HEADER_SIZE)
  {
    var n := on.First() + Span(a) + HEADER_SIZE;
    var la, lb := Links(on.First(), a), Links(n + x.size, b);
    RingPartsBoth(on, off, a, x, b, la, n, lb);
    SplicedInsert(on.Head(), la, n, lb);
  }

  /** list_del of node number k: only links of the ring change, and no kept byte. */
  lemma DelFrame(m: seq<Byte>, g: Group, k: nat)
    requires g.Tiled() && IsRing(m, g.FreeRing()) && 1 <= k < |g.FreeRing()|
    ensures var n := g.FreeRing()[k];
      && n + LINK <= |m| && n < WORD && Prev(m, n) + LINK <= |m| && Next(m, n) + LINK <= |m| && Apart(Prev(m, n), n)
      && Apart(Next(m, n), n)
      && Prev(m, n) == g.FreeRing()[k - 1]
      && OnlyLinks(m, Del(m, n), g.FreeRing()) && Safe(m, Del(m, n), g)
  {
    var l := g.FreeRing();
    Neighbours(m, l, k);
    var p, n, q := l[k - 1], l[k], l[Succ(l, k)];
    DelOnlyLinks(m, l, p, n, q);
    forall x, b | x in l && x <= b < x + LINK ensures !g.Kept(b) { LinkScratch(g, x, b); }
    SafeDel(m, g, p, n, q);
  }

  /** list_del of the block x. */
  lemma Unlink(m: seq<Byte>, on: Group, off: Group, a: seq<Block>, x: Block, b: seq<Block>, n: nat)
    requires on.Tiled() && on.blocks == a + [x.(free := true)] + b && off == on.(blocks := a + [x.(free := false)] + b)
    requires IsRing(m, on.FreeRing()) && n == on.First() + Span(a) + HEADER_SIZE
    ensures n + LINK <= |m| && n < WORD && Prev(m, n) + LINK <= |m| && Next(m, n) + LINK <= |m| && Apart(Prev(m, n), n)
    ensures Apart(Next(m, n), n)
    ensures Position(on, a) <= |off.FreeRing()| && Prev(m, n) == off.FreeRing()[Position(on, a) - 1]
    ensures OnlyLinks(m, Del(m, n), on.FreeRing()) && Safe(m, Del(m, n), on) && IsRing(Del(m, n), off.FreeRing())
  {
    var k := Position(on, a);
    RingWithout(on, off, a, x, b);
    DelFrame(m, on, k);
    DelRing(m, on.FreeRing(), k);
    assert off.FreeRing()[k - 1] == on.FreeRing()[k - 1];
  }

  /** A list_node inside an allocated block overlaps no node of the free list. */
  lemma InsideSeparate(m: seq<Byte>, g: Group, a: seq<Block>, x: Block, b: seq<Block>, n: nat)
    requires BigEnough(g.blocks) && g.blocks == a + [x] + b && !x.free && n + LINK <= |m| <= WORD
    requires g.First() + Span(a) + HEADER_SIZE <= n && n + LINK <= g.First() + Span(a) + HEADER_SIZE + x.size
    ensures Separate(m, g.FreeRing(), n)
  {
    InsideOff(g, a, x, b, n);
    InsideOff(g, a, x, b, n + 4);
  }

  lemma InsertHas(l: seq<nat>, k: nat, n: nat)
    requires 1 <= k <= |l|
    ensures var l' := Insert(l, k, n); l[k - 1] in l' && n in l' && l[Succ(l, k - 1)] in l'
  {
    var l' := Insert(l, k, n);
    assert l'[k - 1] == l[k - 1] && l'[k] == n;
    assert k < |l| ==> l'[k + 1] == l[k];
    assert l'[0] == l[0];
  }

  lemma RingBounds(m: seq<Byte>, l: seq<nat>, i: nat)
    requires IsRing(m, l) && i < |l|
    ensures l[i] + LINK <= |m| && l[i] < WORD && l[Succ(l, i)] + LINK <= |m| && l[Succ(l, i)] < WORD
    ensures Next(m, l[i]) == l[Succ(l, i)] && Prev(m, l[i]) == l[Pred(l, i)]
  {
    assert Linked(m, l, i);
  }

  /** list_add of n after node number k - 1: only links of the new ring change, and no kept byte. */
  lemma AddFrame(m: seq<Byte>, g: Group, l: seq<nat>, k: nat, n: nat)
    requires g.Tiled() && 1 <= k <= |l| && g.FreeRing() == Insert(l, k, n) && n + LINK <= |m| && n < WORD
    requires l[k - 1] + LINK <= |m| && l[Succ(l, k - 1)] + LINK <= |m| && l[k - 1] < WORD && l[Succ(l, k - 1)] < WORD
    ensures var m' := AddBetween(m, l[k - 1], n, l[Succ(l, k - 1)]); OnlyLinks(m, m', g.FreeRing()) && Safe(m, m', g)
  {
    var p, q, l' := l[k - 1], l[Succ(l, k - 1)], g.FreeRing();
    InsertHas(l, k, n);
    AddOnlyLinks(m, l', p, n, q);
    forall x, b | x in l' && x <= b < x + LINK ensures !g.Kept(b) { LinkScratch(g, x, b); }
    SafeAdd(m, g, p, n, q);
  }

  /** list_add of the block x at its place in the address order. */
  lemma Link(m: seq<Byte>, on: Group, off: Group, a: seq<Block>, x: Block, b: seq<Block>, n: nat)
    requires on.Tiled() && on.End() <= |m| <= WORD
    requires on.blocks == a + [x.(free := true)] + b && off == on.(blocks := a + [x.(free := false)] + b)
    requires IsRing(m, off.FreeRing()) && n == on.First() + Span(a) + HEADER_SIZE
    ensures var l, k := off.FreeRing(), Position(on, a);
      && k <= |l| && n + LINK <= |m| && n < WORD
      && l[k - 1] + LINK <= |m| && l[Succ(l, k - 1)] + LINK <= |m| && l[k - 1] < WORD && l[Succ(l, k - 1)] < WORD
      && var m' := AddBetween(m, l[k - 1], n, l[Succ(l, k - 1)]);
         OnlyLinks(m, m', on.FreeRing()) && Safe(m, m', on) && IsRing(m', on.FreeRing())
  {
    var l, k := off.FreeRing(), Position(on, a);
    RingWith(on, off, a, x, b);
    RingBounds(m, l, k - 1);
    HeaderInMemory(m, on, a, x.(free := true), b);
    SameSizes(a, x.(free := true), b, x.(free := false));
    InsideSeparate(m, off, a, x.(free := false), b, n);
    AddFrame(m, on, l, k, n);
    AddBetweenRing(m, l, k - 1, n);
  }

  // ---------- splitting ----------

  lemma {:induction false} ClearConcat(at: nat, a: seq<Block>, b: seq<Block>, l: seq<nat>)
    requires Clear(at, a + b, l)
    ensures Clear(at, a, l) && Clear(at + Span(a), b, l)
    decreases |a|
  {
    if a == [] {
      assert a + b == b;
    } else {
      assert (a + b)[1..] == a[1..] + b;
      ClearConcat(at + HEADER_SIZE + a[0].size, a[1..], b, l);
    }
  }

  lemma ClearAroundTwo(at: nat, a: seq<Block>, z: Block, y: Block, b: seq<Block>, l: seq<nat>)
    requires Clear(at, a + [z, y] + b, l)
    ensures var n := at + Span(a);
      var n' := n + HEADER_SIZE + z.size;
      Clear(at, a, l) && Off(l, n) && Off(l, n') && Clear(n' + HEADER_SIZE + y.size, b, l)
  {
    assert a + [z, y] + b == a + ([z] + ([y] + b)) && ([z] + ([y] + b))[1..] == [y] + b && ([y] + b)[1..] == b;
    ClearConcat(at, a, [z] + ([y] + b), l);
  }

  /** x becomes the allocated z and the FREE y. */
  predicate IsCut(x: Block, z: Block, y: Block) {
    !x.free && !z.free && y.free && x.size == z.size + HEADER_SIZE + y.size && MIN_SIZE <= z.size && MIN_SIZE <= y.size
  }

  /** The headers of a group being split: y is written, x still has its old size. */
  ghost predicate Splitting(m: seq<Byte>, at: nat, a: seq<Block>, x: Block, z: Block, y: Block, b: seq<Block>) {
    var n := at + Span(a);
    var n' := n + HEADER_SIZE + z.size;
    && n + 4 <= |m| && n' + 4 <= |m|
    && Headers(m, at, a) && Read(m, n) == Header(x) && Read(m, n') == Header(y)
    && Headers(m, n' + HEADER_SIZE + y.size, b)
  }

  lemma SplitTiled(g: Group, g': Group, a: seq<Block>, x: Block, z: Block, y: Block, b: seq<Block>)
    requires g.Tiled() && g.blocks == a + [x] + b && IsCut(x, z, y) && g' == g.(blocks := a + [z, y] + b)
    ensures g'.Tiled()
  {
    Around(g.First(), a, x, b);
    AroundTwo(g.First(), a, z, y, b);
    var bs, bs' := g.blocks, g'.blocks;
    forall i | 0 <= i < |bs'| ensures bs'[i].size >= MIN_SIZE {
      if i < |a| { assert bs[i] == bs'[i]; } else if i >= |a| + 2 { assert bs'[i] == bs[i - 1]; }
    }
  }

  lemma SplitRingParts(g: Group, g': Group, a: seq<Block>, x: Block, z: Block, y: Block, b: seq<Block>, n: nat)
    requires g.blocks == a + [x] + b && IsCut(x, z, y) && g' == g.(blocks := a + [z, y] + b)
    requires n == g.First() + Span(a) + 2 * HEADER_SIZE + z.size
    ensures Position(g, a) <= |g.FreeRing()| && g'.FreeRing() == Insert(g.FreeRing(), Position(g, a), n)
  {
    var at := g.First();
    var la, lb := Links(at, a), Links(n + y.size, b);
    RingParts(g, a, x, b, la, at + Span(a) + HEADER_SIZE, lb);
    AroundTwo(at, a, z, y, b);
    assert la + [] + [n] + lb == la + [n] + lb;
    SplicedInsert(g.Head(), la, n, lb);
  }

  /** list_add of the FREE block y cut from x. */
  lemma SplitLink(m: seq<Byte>, g: Group, g': Group, a: seq<Block>, x: Block, z: Block, y: Block, b: seq<Block>, n: nat)
    requires g.Tiled() && g.End() <= |m| <= WORD && IsRing(m, g.FreeRing()) && g.blocks == a + [x] + b && IsCut(x, z, y)
    requires g' == g.(blocks := a + [z, y] + b) && n == g.First() + Span(a) + 2 * HEADER_SIZE + z.size
    ensures g'.Tiled()
    ensures var l, k := g.FreeRing(), Position(g, a);
      && k <= |l| && n + LINK <= |m| && n < WORD
      && l[k - 1] + LINK <= |m| && l[Succ(l, k - 1)] + LINK <= |m| && l[k - 1] < WORD && l[Succ(l, k - 1)] < WORD
      && Next(m, l[k - 1]) == l[Succ(l, k - 1)]
      && var m' := AddBetween(m, l[k - 1], n, l[Succ(l, k - 1)]);
         OnlyLinks(m, m', g'.FreeRing()) && Safe(m, m', g') && IsRing(m', g'.FreeRing())
  {
    var l, k := g.FreeRing(), Position(g, a);
    SplitTiled(g, g', a, x, z, y, b);
    SplitRingParts(g, g', a, x, z, y, b, n);
    RingBounds(m, l, k - 1);
    HeaderInMemory(m, g, a, x, b);
    InsideSeparate(m, g, a, x, b, n);
    AddFrame(m, g', l, k, n);
    AddBetweenRing(m, l, k - 1, n);
  }

  lemma SplitHeaders(m: seq<Byte>, m': seq<Byte>, g: Group, g': Group, a: seq<Block>, x: Block, z: Block, y: Block,
    b: seq<Block>, n: nat)
    requires Headers(m, g.First(), g.blocks) && g.blocks == a + [x] + b && IsCut(x, z, y)
    requires g' == g.(blocks := a + [z, y] + b)
    requires BigEnough(g'.blocks) && n == g.First() + Span(a) + HEADER_SIZE + z.size && n + 4 <= |m|
    requires Read(m, n) == Header(y)
    requires OnlyLinks(m, m', g'.FreeRing())
    ensures Splitting(m', g.First(), a, x, z, y, b)
  {
    var l' := g'.FreeRing();
    GroupClear(g');
    ClearAroundTwo(g.First(), a, z, y, b, l');
    HeadersAround(m, g.First(), a, x, b);
    HeadersClear(m, m', g.First(), a, l');
    var n' := g.First() + Span(a) + HEADER_SIZE + z.size;
    assert n' + HEADER_SIZE + y.size == g.First() + Span(a) + HEADER_SIZE + x.size;
    HeadersClear(m, m', n' + HEADER_SIZE + y.size, b, l');
  }

  lemma SplitCounter(m: seq<Byte>, g: Group, a: seq<Block>, x: Block, z: Block, y: Block, b: seq<Block>, v: Word)
    requires Splitting(m, g.First(), a, x, z, y, b) && Fields(m, g)
    ensures Splitting(Write(m, g.base + FREE_OFFSET, v), g.First(), a, x, z, y, b)
    ensures Fields(Write(m, g.base + FREE_OFFSET, v), g)
  {
    var m' := Write(m, g.base + FREE_OFFSET, v);
    HeadersSame(m, m', g.First(), a);
    HeadersSame(m, m', g.First() + Span(a) + HEADER_SIZE + z.size + HEADER_SIZE + y.size, b);
    FieldsSame(m, m', g);
  }

  lemma SplitDoneHeaders(m: seq<Byte>, at: nat, a: seq<Block>, x: Block, z: Block, y: Block, b: seq<Block>)
    requires Splitting(m, at, a, x, z, y, b) && Header(z) < WORD
    ensures Headers(Write(m, at + Span(a), Header(z)), at, a + [z, y] + b)
  {
    var n := at + Span(a);
    var m' := Write(m, n, Header(z));
    HeadersSame(m, m', at, a);
    HeadersSame(m, m', n + HEADER_SIZE + z.size + HEADER_SIZE + y.size, b);
    HeadersAroundTwo(m', at, a, z, y, b);
  }

  /** Writing x's new size completes the split. */
  lemma SplitDone(m: seq<Byte>, g: Group, free: int, a: seq<Block>, x: Block, z: Block, y: Block, b: seq<Block>, n: nat)
    requires Splitting(m, g.First(), a, x, z, y, b) && Header(z) < WORD && !z.free && g.blocks == a + [z, y] + b
    requires g.Tiled() && Fields(m, g) && Read(m, g.base + FREE_OFFSET) == free && n == g.First() + Span(a)
    ensures Body(Write(m, n, Header(z)), g, free) && Off(g.FreeRing(), n)
  {
    SplitDoneHeaders(m, g.First(), a, x, z, y, b);
    FieldsWrite(m, g, n, Header(z));
    assert g.blocks == a + [z] + ([y] + b);
    InsideOff(g, a, z, [y] + b, n);
  }

  // ---------- merging ----------

  lemma GrowHeaders(m: seq<Byte>, at: nat, a: seq<Block>, p: Block, x: Block, b: seq<Block>, y: Block)
    requires Headers(m, at, a + [p, x] + b) && y.size == p.size + x.size + HEADER_SIZE && Header(y) < WORD
    requires at + Span(a) + 4 <= |m|
    ensures Headers(Write(m, at + Span(a), Header(y)), at, a + [y] + b)
  {
    var n := at + Span(a);
    var m' := Write(m, n, Header(y));
    HeadersAroundTwo(m, at, a, p, x, b);
    HeadersSame(m, m', at, a);
    HeadersSame(m, m', n + HEADER_SIZE + y.size, b);
    HeadersAround(m', at, a, y, b);
  }

  /** Growing the size of p over x. */
  lemma GrowBody(m: seq<Byte>, g: Group, g': Group, free: int, a: seq<Block>, p: Block, x: Block, b: seq<Block>,
    y: Block, n: nat)
    requires p.free && x.free && y == Block(p.size + x.size + HEADER_SIZE, true)
    requires g.blocks == a + [p, x] + b && g' == g.(blocks := a + [y] + b) && Body(m, g, free)
    requires n == g.First() + Span(a) && n + 4 <= |m| && Header(y) < WORD
    ensures Body(Write(m, n, Header(y)), g', free) && Off(g'.FreeRing(), n)
  {
    JoinKeeps(g.First(), a, p, x, b);
    GrowHeaders(m, g.First(), a, p, x, b, y);
    FieldsWrite(m, g, n, Header(y));
    InsideOff(g', a, y, b, n);
  }

  /** Once x is out of the free list, the list is that of the merged blocks. */
  lemma GrownRing(g: Group, a: seq<Block>, p: Block, x: Block, b: seq<Block>)
    requires p.free
    ensures g.(blocks := a + [p, x.(free := false)] + b).FreeRing() ==
            g.(blocks := a + [Block(p.size + x.size + HEADER_SIZE, true)] + b).FreeRing()
  {
    var at := g.First();
    AroundTwo(at, a, p, x.(free := false), b);
    Around(at, a, Block(p.size + x.size + HEADER_SIZE, true), b);
    assert at + Span(a) + HEADER_SIZE + p.size + HEADER_SIZE + x.size
        == at + Span(a) + HEADER_SIZE + (p.size + x.size + HEADER_SIZE);
    var la, n := Links(at, a), at + Span(a) + HEADER_SIZE;
    assert la + [n] + [] == la + [n];
  }
}
