/** The groups of the kernel heap together (src/kmalloc.c): what an operation on one group leaves alone. */
module HeapGroups {
  import opened Memory
  import opened Ring
  import opened HeapLayout
  import opened HeapMemory
  import opened HeapSteps
  import opened HeapWrites

  /** The list_nodes of the groups, the list head first. */
  function ListRing(head: nat, gs: seq<Group>): (r: seq<nat>)
    ensures |r| == |gs| + 1 && r[0] == head
    ensures forall i {:trigger gs[i]} | 0 <= i < |gs| :: r[i + 1] == gs[i].base + GROUP_LIST_OFFSET
  {
    [head] + seq(|gs|, i requires 0 <= i < |gs| => gs[i].base + GROUP_LIST_OFFSET)
  }

  ghost predicate Held(m: seq<Byte>, head: nat, g: Group) {
    Rep(m, g) && g.Valid() && (g.End() <= head || head + LINK <= g.base)
  }

  predicate Apart2(g: Group, h: Group) { g.End() <= h.base || h.End() <= g.base }

  ghost predicate AllHeld(m: seq<Byte>, head: nat, gs: seq<Group>) {
    forall i {:trigger HeldAt(m, head, gs, i)} | 0 <= i < |gs| :: HeldAt(m, head, gs, i)
  }

  ghost predicate HeldAt(m: seq<Byte>, head: nat, gs: seq<Group>, i: nat) {
    i < |gs| && Held(m, head, gs[i])
  }

  ghost predicate AllApart(gs: seq<Group>) {
    forall i, j {:trigger ApartPair(gs, i, j)} | 0 <= i < j < |gs| :: ApartPair(gs, i, j)
  }

  ghost predicate ApartPair(gs: seq<Group>, i: nat, j: nat) {
    i < |gs| && j < |gs| && Apart2(gs[i], gs[j])
  }

  /** The heap: the groups in list order and those that are not in the list, because they are being set up or torn
      down. */
  ghost predicate HeapValid(m: seq<Byte>, head: nat, groups: seq<Group>, spares: seq<Group>) {
    && head + LINK <= |m| <= WORD
    && AllHeld(m, head, groups + spares) && AllApart(groups + spares)
    && (forall i | 0 <= i < |spares| :: Live(spares[i].First(), spares[i].blocks) == [])
    && IsRing(m, ListRing(head, groups))
  }

  /** The data of the live allocations of all groups. */
  ghost function Extents(gs: seq<Group>): set<Extent> {
    set k, e | 0 <= k < |gs| && e in Live(gs[k].First(), gs[k].blocks) :: e
  }

  ghost predicate LiveByte(gs: seq<Group>, b: nat) {
    exists e :: e in Extents(gs) && e.start <= b < e.start + e.len
  }

  // ---------- frames ----------

  lemma WordSame(m: seq<Byte>, m': seq<Byte>, x: nat)
    requires |m'| == |m| && x + 4 <= |m| && forall b | x <= b < x + 4 :: m'[b] == m[b]
    ensures Read(m', x) == Read(m, x)
  {
    ReadLeSame(m, m', x, x + 4);
  }

  lemma RingSame(m: seq<Byte>, m': seq<Byte>, l: seq<nat>)
    requires IsRing(m, l) && |m'| == |m| && forall i, b | 0 <= i < |l| && l[i] <= b < l[i] + LINK :: m'[b] == m[b]
    ensures IsRing(m', l)
  {
    forall i | 0 <= i < |l| ensures Linked(m', l, i) {
      assert Linked(m, l, i);
      WordSame(m, m', l[i]);
      WordSame(m, m', l[i] + 4);
    }
  }

  lemma RingWithin(g: Group, k: nat)
    requires g.Tiled() && k < |g.FreeRing()|
    ensures g.Head() <= g.FreeRing()[k] && g.FreeRing()[k] + LINK <= g.End()
  {
    SpanPositive(g);
    if k > 0 {
      assert g.FreeRing()[k] == Links(g.First(), g.blocks)[k - 1];
      LinksWithin(g.First(), g.blocks, g.FreeRing()[k]);
    }
  }

  /** A group is where its own bytes say it is. */
  lemma RepSame(m: seq<Byte>, m': seq<Byte>, g: Group)
    requires Rep(m, g) && |m'| == |m|
    requires forall b | g.base <= b < g.End() && !(g.base + GROUP_LIST_OFFSET <= b < g.Head()) :: m'[b] == m[b]
    ensures Rep(m', g)
  {
    SpanPositive(g);
    WordSame(m, m', g.base);
    WordSame(m, m', g.base + 4);
    WordSame(m, m', g.base + FREE_OFFSET);
    forall x: nat | g.First() <= x && x + 4 <= g.First() + Span(g.blocks) && x + 4 <= |m|
      ensures Read(m', x) == Read(m, x) { WordSame(m, m', x); }
    HeadersSame(m, m', g.First(), g.blocks);
    forall i, b | 0 <= i < |g.FreeRing()| && g.FreeRing()[i] <= b < g.FreeRing()[i] + LINK
      ensures m'[b] == m[b] { RingWithin(g, i); }
    RingSame(m, m', g.FreeRing());
  }

  /** The bytes of other groups, of the list of groups and of every live allocation are unchanged. */
  ghost predicate Outside(m: seq<Byte>, m': seq<Byte>, g: Group) {
    |m'| == |m| && forall b {:trigger m'[b]} | 0 <= b < |m| && !(g.base <= b < g.base + GROUP_LIST_OFFSET)
      && !(g.Head() <= b < g.End()) :: m'[b] == m[b]
  }

  lemma SafeOutside(m: seq<Byte>, m': seq<Byte>, g: Group)
    requires Safe(m, m', g)
    ensures Outside(m, m', g)
  {
    forall b | 0 <= b < |m| && !(g.base <= b < g.base + GROUP_LIST_OFFSET) && !(g.Head() <= b < g.End())
      ensures m'[b] == m[b] {
      assert g.Kept(b);
    }
  }

  lemma HeldSame(m: seq<Byte>, m': seq<Byte>, head: nat, g: Group, h: Group)
    requires Outside(m, m', g) && g.Tiled() && Apart2(g, h) && Held(m, head, h)
    ensures Held(m', head, h)
  {
    SpanPositive(g);
    forall b | h.base <= b < h.End() ensures m'[b] == m[b] { }
    RepSame(m, m', h);
  }

  lemma HeldAll(m: seq<Byte>, m': seq<Byte>, head: nat, gs: seq<Group>, k: nat, g': Group)
    requires AllHeld(m, head, gs) && AllApart(gs) && k < |gs| && Outside(m, m', gs[k])
    requires Rep(m', g') && g'.Valid() && g' == gs[k].(blocks := g'.blocks)
    ensures AllHeld(m', head, gs[k := g'])
  {
    var gs' := gs[k := g'];
    assert HeldAt(m, head, gs, k);
    forall i | 0 <= i < |gs| ensures HeldAt(m', head, gs', i) {
      assert HeldAt(m, head, gs, i);
      if i != k {
        assert ApartPair(gs, if i < k then i else k, if i < k then k else i);
        HeldSame(m, m', head, gs[k], gs[i]);
      }
    }
  }

  lemma ListSame(m: seq<Byte>, m': seq<Byte>, head: nat, gs: seq<Group>, spares: seq<Group>, k: nat)
    requires AllHeld(m, head, gs + spares) && AllApart(gs + spares) && k < |gs| && Outside(m, m', gs[k])
    requires IsRing(m, ListRing(head, gs))
    ensures IsRing(m', ListRing(head, gs))
  {
    var l, all := ListRing(head, gs), gs + spares;
    assert HeldAt(m, head, all, k) && all[k] == gs[k];
    SpanPositive(gs[k]);
    forall i, b | 0 <= i < |l| && l[i] <= b < l[i] + LINK ensures m'[b] == m[b] {
      if i > 0 {
        assert HeldAt(m, head, all, i - 1) && all[i - 1] == gs[i - 1];
        SpanPositive(gs[i - 1]);
        assert i - 1 != k ==> ApartPair(all, if i - 1 < k then i - 1 else k, if i - 1 < k then k else i - 1);
      }
    }
    RingSame(m, m', l);
  }

  lemma ApartUpdate(gs: seq<Group>, k: nat, g': Group)
    requires AllApart(gs) && k < |gs| && g' == gs[k].(blocks := g'.blocks)
    ensures AllApart(gs[k := g'])
  {
    var gs' := gs[k := g'];
    forall i, j | 0 <= i < j < |gs| ensures ApartPair(gs', i, j) { assert ApartPair(gs, i, j); }
  }

  lemma UpdateConcat(groups: seq<Group>, spares: seq<Group>, k: nat, g': Group)
    requires k < |groups|
    ensures (groups + spares)[k] == groups[k] && (groups + spares)[k := g'] == groups[k := g'] + spares
  {
  }

  lemma UpdateRing(head: nat, groups: seq<Group>, k: nat, g': Group)
    requires k < |groups| && g'.base == groups[k].base
    ensures ListRing(head, groups[k := g']) == ListRing(head, groups)
  {
  }

  /** An operation inside listed group k keeps the heap. */
  lemma GroupStep(m: seq<Byte>, m': seq<Byte>, head: nat, groups: seq<Group>, spares: seq<Group>, k: nat, g': Group)
    requires HeapValid(m, head, groups, spares) && k < |groups| && Outside(m, m', groups[k])
    requires Rep(m', g') && g'.Valid() && g' == groups[k].(blocks := g'.blocks)
    ensures HeapValid(m', head, groups[k := g'], spares)
  {
    var all := groups + spares;
    UpdateConcat(groups, spares, k, g');
    HeldAll(m, m', head, all, k, g');
    ApartUpdate(all, k, g');
    ListSame(m, m', head, groups, spares, k);
    UpdateRing(head, groups, k, g');
  }

  // ---------- live allocations ----------

  lemma ExtentsAt(gs: seq<Group>, k: nat, i: nat)
    requires k < |gs| && i < |Live(gs[k].First(), gs[k].blocks)|
    ensures Live(gs[k].First(), gs[k].blocks)[i] in Extents(gs)
  {
    var e := Live(gs[k].First(), gs[k].blocks)[i];
    assert e in Live(gs[k].First(), gs[k].blocks);
  }

  /** Every allocation lies inside its group, behind a header, and has room for a list_node. */
  lemma ExtentInside(m: seq<Byte>, head: nat, groups: seq<Group>, spares: seq<Group>, e: Extent)
    returns (k: nat, i: nat)
    requires HeapValid(m, head, groups, spares) && e in Extents(groups)
    ensures k < |groups| && i < |Live(groups[k].First(), groups[k].blocks)|
    ensures e == Live(groups[k].First(), groups[k].blocks)[i]
    ensures groups[k].First() + HEADER_SIZE <= e.start && e.start + e.len <= groups[k].End() && e.len >= MIN_SIZE
  {
    k :| 0 <= k < |groups| && e in Live(groups[k].First(), groups[k].blocks);
    i :| 0 <= i < |Live(groups[k].First(), groups[k].blocks)| && e == Live(groups[k].First(), groups[k].blocks)[i];
    assert HeldAt(m, head, groups + spares, k) && (groups + spares)[k] == groups[k];
    LiveWithin(groups[k].First(), groups[k].blocks, i);
  }

  lemma ApartAt(groups: seq<Group>, spares: seq<Group>, k: nat, l: nat)
    requires AllApart(groups + spares) && k < |groups| && l < |groups| && k != l
    ensures Apart2(groups[k], groups[l])
  {
    var all := groups + spares;
    assert ApartPair(all, if k < l then k else l, if k < l then l else k);
  }

  lemma ApartSpare(groups: seq<Group>, spares: seq<Group>, k: nat, s: nat)
    requires AllApart(groups + spares) && k < |groups| && s < |spares|
    ensures Apart2(groups[k], spares[s])
  {
    var all := groups + spares;
    assert all[k] == groups[k] && all[|groups| + s] == spares[s];
    assert ApartPair(all, k, |groups| + s);
  }

  /** Live allocations are pairwise disjoint, across all groups. */
  lemma AllocationsDisjoint(m: seq<Byte>, head: nat, groups: seq<Group>, spares: seq<Group>, e: Extent, f: Extent)
    requires HeapValid(m, head, groups, spares) && e in Extents(groups) && f in Extents(groups) && e != f
    ensures e.start + e.len <= f.start || f.start + f.len <= e.start
  {
    var k, i := ExtentInside(m, head, groups, spares, e);
    var l, j := ExtentInside(m, head, groups, spares, f);
    if k == l {
      if i < j { LiveDisjoint(groups[k].First(), groups[k].blocks, i, j); }
        else { LiveDisjoint(groups[k].First(), groups[k].blocks, j, i); }
    } else {
      ApartAt(groups, spares, k, l);
    }
  }

  /** Replacing the live allocations of group k. */
  lemma ExtentsUpdate(gs: seq<Group>, k: nat, g': Group, e: Extent)
    requires k < |gs| && g'.base == gs[k].base
    ensures e in Extents(gs[k := g']) <==>
      e in Live(g'.First(), g'.blocks) || exists i :: 0 <= i < |gs| && i != k && e in Live(gs[i].First(), gs[i].blocks)
    ensures e in Extents(gs) <==>
      e in Live(gs[k].First(), gs[k].blocks) || exists i ::
        0 <= i < |gs| && i != k && e in Live(gs[i].First(), gs[i].blocks)
  {
    var gs' := gs[k := g'];
    if i :| 0 <= i < |gs| && i != k && e in Live(gs[i].First(), gs[i].blocks) {
      assert gs'[i] == gs[i];
    }
    if e in Extents(gs') {
      var i :| 0 <= i < |gs'| && e in Live(gs'[i].First(), gs'[i].blocks);
      assert i != k ==> gs'[i] == gs[i];
    }
    if e in Live(g'.First(), g'.blocks) { assert gs'[k] == g'; }
  }

  // ---------- allocation and release seen from the whole heap ----------

  lemma HeldGroup(m: seq<Byte>, head: nat, groups: seq<Group>, spares: seq<Group>, k: nat)
    requires HeapValid(m, head, groups, spares) && k < |groups|
    ensures Held(m, head, groups[k])
  {
    assert HeldAt(m, head, groups + spares, k) && (groups + spares)[k] == groups[k];
  }

  lemma GroupFields(m: seq<Byte>, head: nat, groups: seq<Group>, spares: seq<Group>, k: nat)
    requires HeapValid(m, head, groups, spares) && k < |groups|
    ensures var g := groups[k];
      && g.base + GROUP_SIZE <= |m| && Read(m, g.base + FREE_OFFSET) == FreeBytes(g.blocks)
      && Read(m, g.base + 4) == g.pages && Read(m, g.base) == g.Capacity()
  {
    HeldGroup(m, head, groups, spares, k);
  }

  lemma HeldSpare(m: seq<Byte>, head: nat, groups: seq<Group>, spares: seq<Group>, k: nat)
    requires HeapValid(m, head, groups, spares) && k < |spares|
    ensures Held(m, head, spares[k]) && Live(spares[k].First(), spares[k].blocks) == []
  {
    assert HeldAt(m, head, groups + spares, |groups| + k) && (groups + spares)[|groups| + k] == spares[k];
  }

  ghost predicate Unfit(gs: seq<Group>, size: nat, j: nat) {
    j < |gs| && NoFit(gs[j].blocks, size)
  }

  /** None of the first k groups has a FREE block that fits. */
  ghost predicate NoneFits(gs: seq<Group>, k: nat, size: nat) {
    forall j {:trigger Unfit(gs, size, j)} | 0 <= j < k :: Unfit(gs, size, j)
  }

  /** A group with less free bytes than asked for has no FREE block that fits. */
  lemma {:induction false} TooFull(bs: seq<Block>, size: nat)
    requires FreeBytes(bs) < size
    ensures NoFit(bs, size)
  {
    if bs != [] {
      TooFull(bs[1..], size);
      forall j | 0 <= j < |bs| && bs[j].free ensures bs[j].size < size { if j > 0 { assert bs[j] == bs[1..][j - 1]; } }
    }
  }

  /** Allocating adds one extent. */
  lemma AllocateExtents(gs: seq<Group>, k: nat, i: nat, size: nat, g': Group)
    requires k < |gs| && i < |gs[k].blocks| && gs[k].blocks[i].free && size <= gs[k].blocks[i].size
    requires g' == gs[k].(blocks := gs[k].blocks[..i] + Cut(gs[k].blocks[i].size, size) + gs[k].blocks[i + 1..])
    ensures Extents(gs[k := g']) ==
      Extents(gs) + {Extent(gs[k].First() + Span(gs[k].blocks[..i]) + HEADER_SIZE,
        Cut(gs[k].blocks[i].size, size)[0].size)}
  {
    var g, bs := gs[k], gs[k].blocks;
    assert bs == bs[..i] + [bs[i]] + bs[i + 1..];
    CutKeeps(g.First(), bs[..i], bs[i], bs[i + 1..], size);
    var f := Extent(g.First() + Span(bs[..i]) + HEADER_SIZE, Cut(bs[i].size, size)[0].size);
    forall e ensures e in Extents(gs[k := g']) <==> e in Extents(gs) || e == f { ExtentsUpdate(gs, k, g', e); }
  }

  /** The bytes a group keeps are those of the live allocations of the whole heap. */
  lemma LiveKept(m: seq<Byte>, head: nat, groups: seq<Group>, spares: seq<Group>, k: nat, b: nat)
    requires HeapValid(m, head, groups, spares) && k < |groups| && LiveByte(groups, b)
    ensures b < |m| && groups[k].Kept(b)
  {
    var e :| e in Extents(groups) && e.start <= b < e.start + e.len;
    var l, i := ExtentInside(m, head, groups, spares, e);
    HeldGroup(m, head, groups, spares, l);
    if l != k { ApartAt(groups, spares, k, l); }
  }

  /** An allocation of size bytes at addr, in FREE block i of group k: one live extent more, every live byte as it
      was. */
  ghost predicate Placed(m: seq<Byte>, groups: seq<Group>, m': seq<Byte>, groups': seq<Group>, k: nat, i: nat,
    addr: nat, size: nat) {
    && k < |groups| && FirstFit(groups[k].blocks, size, i) && |m'| == |m| && addr + size <= |m|
    && addr == groups[k].First() + Span(groups[k].blocks[..i]) + HEADER_SIZE
    && NewExtent(groups, groups', Extent(addr, Cut(groups[k].blocks[i].size, size)[0].size), size)
    && (forall b | addr <= b < addr + size :: m'[b] == 0)
    && (forall b: nat | LiveByte(groups, b) :: b < |m| && m'[b] == m[b])
  }

  ghost predicate NewExtent(groups: seq<Group>, groups': seq<Group>, e: Extent, size: nat) {
    size <= e.len < size + NODE_SIZE && e !in Extents(groups) && Extents(groups') == Extents(groups) + {e}
  }

  lemma FreeNotLive(m: seq<Byte>, head: nat, groups: seq<Group>, spares: seq<Group>, k: nat, i: nat, addr: nat)
    requires HeapValid(m, head, groups, spares) && k < |groups| && i < |groups[k].blocks| && groups[k].blocks[i].free
    requires addr == groups[k].First() + Span(groups[k].blocks[..i]) + HEADER_SIZE
    ensures !LiveByte(groups, addr)
  {
    var g := groups[k];
    HeldGroup(m, head, groups, spares, k);
    Parts(g.blocks, i);
    BlockScratch(g, g.blocks[..i], g.blocks[i], g.blocks[i + 1..], addr);
    if LiveByte(groups, addr) { LiveKept(m, head, groups, spares, k, addr); }
  }

  lemma PlacedExtent(m: seq<Byte>, head: nat, groups: seq<Group>, spares: seq<Group>, k: nat, i: nat, size: nat,
    addr: nat, g': Group)
    requires HeapValid(m, head, groups, spares) && k < |groups| && FirstFit(groups[k].blocks, size, i)
    requires size >= MIN_SIZE && addr == groups[k].First() + Span(groups[k].blocks[..i]) + HEADER_SIZE
    requires g' == groups[k].(blocks := groups[k].blocks[..i] + Cut(groups[k].blocks[i].size,
      size) + groups[k].blocks[i + 1..])
    ensures NewExtent(groups, groups[k := g'], Extent(addr, Cut(groups[k].blocks[i].size, size)[0].size), size)
  {
    AllocateExtents(groups, k, i, size, g');
    FreeNotLive(m, head, groups, spares, k, i, addr);
    var e := Extent(addr, Cut(groups[k].blocks[i].size, size)[0].size);
    assert e in Extents(groups) ==> LiveByte(groups, addr);
  }

  /** What kmalloc_in_group does, seen from the whole heap. */
  lemma PlaceStep(m: seq<Byte>, m': seq<Byte>, head: nat, groups: seq<Group>, spares: seq<Group>, k: nat, i: nat,
    size: nat, addr: nat, g': Group)
    requires HeapValid(m, head, groups, spares) && k < |groups| && Safe(m, m', groups[k]) && Rep(m', g') && g'.Valid()
    requires FirstFit(groups[k].blocks, size, i) && size >= MIN_SIZE
    requires addr == groups[k].First() + Span(groups[k].blocks[..i]) + HEADER_SIZE
    requires g' == groups[k].(blocks := groups[k].blocks[..i] + Cut(groups[k].blocks[i].size,
      size) + groups[k].blocks[i + 1..])
    requires addr + size <= |m'| && forall b | addr <= b < addr + size :: m'[b] == 0
    ensures HeapValid(m', head, groups[k := g'], spares) && Placed(m, groups, m', groups[k := g'], k, i, addr, size)
  {
    SafeOutside(m, m', groups[k]);
    GroupStep(m, m', head, groups, spares, k, g');
    PlacedExtent(m, head, groups, spares, k, i, size, addr, g');
    forall b: nat | LiveByte(groups, b) ensures b < |m| && m'[b] == m[b] { LiveKept(m, head, groups, spares, k, b); }
  }

  // ---------- groups that come and go ----------

  /** Only bytes between lo and hi change, and no group or list_node of the heap lies there. */
  lemma HeldElsewhere(m: seq<Byte>, m': seq<Byte>, head: nat, gs: seq<Group>, lo: nat, hi: nat)
    requires AllHeld(m, head, gs) && OnlyIn(m, m', lo, hi)
    requires forall i | 0 <= i < |gs| :: gs[i].End() <= lo || hi <= gs[i].base
    ensures AllHeld(m', head, gs)
  {
    forall i | 0 <= i < |gs| ensures HeldAt(m', head, gs, i) {
      assert HeldAt(m, head, gs, i);
      RepSame(m, m', gs[i]);
    }
  }

  lemma ListElsewhere(m: seq<Byte>, m': seq<Byte>, head: nat, groups: seq<Group>, spares: seq<Group>, lo: nat, hi: nat)
    requires AllHeld(m, head, groups + spares) && OnlyIn(m, m', lo, hi) && IsRing(m, ListRing(head, groups))
    requires head + LINK <= lo || hi <= head
    requires forall i | 0 <= i < |groups| :: groups[i].End() <= lo || hi <= groups[i].base
    ensures IsRing(m', ListRing(head, groups))
  {
    var l := ListRing(head, groups);
    forall i, b | 0 <= i < |l| && l[i] <= b < l[i] + LINK ensures m'[b] == m[b] {
      if i > 0 {
        assert HeldAt(m, head, groups + spares, i - 1) && (groups + spares)[i - 1] == groups[i - 1];
        SpanPositive(groups[i - 1]);
      }
    }
    RingSame(m, m', l);
  }

  /** Memory from lo to hi belongs to no group and not to the list head. */
  ghost predicate Unused(head: nat, groups: seq<Group>, spares: seq<Group>, lo: nat, hi: nat) {
    && (head + LINK <= lo || hi <= head)
    && (forall i | 0 <= i < |groups| :: groups[i].End() <= lo || hi <= groups[i].base)
    && (forall i | 0 <= i < |spares| :: spares[i].End() <= lo || hi <= spares[i].base)
  }

  lemma CreateStep(m: seq<Byte>, m': seq<Byte>, head: nat, groups: seq<Group>, spares: seq<Group>, g: Group)
    requires HeapValid(m, head, groups, spares) && Unused(head, groups, spares, g.base, g.End())
    requires OnlyIn(m, m', g.base, g.End())
    requires Rep(m', g) && g.Valid() && Live(g.First(), g.blocks) == []
    ensures HeapValid(m', head, groups, spares + [g])
  {
    var all := groups + spares;
    assert all + [g] == groups + (spares + [g]);
    HeldElsewhere(m, m', head, all, g.base, g.End());
    ListElsewhere(m, m', head, groups, spares, g.base, g.End());
    var all' := all + [g];
    forall i | 0 <= i < |all'| ensures HeldAt(m', head, all', i) { if i < |all| { assert HeldAt(m', head, all, i); } }
    forall i, j | 0 <= i < j < |all'| ensures ApartPair(all', i, j) {
      if j < |all| { assert ApartPair(all, i, j); }
    }
  }

  function Without<T>(s: seq<T>, i: nat): seq<T>
    requires i < |s|
  {
    s[..i] + s[i + 1..]
  }

  /** Dropping a group that is not in the list. */
  lemma DropStep(m: seq<Byte>, head: nat, groups: seq<Group>, spares: seq<Group>, s: nat)
    requires HeapValid(m, head, groups, spares) && s < |spares|
    ensures HeapValid(m, head, groups, Without(spares, s))
  {
    var all, all', n := groups + spares, groups + Without(spares, s), |groups| + s;
    var f := seq(|all'|, i requires 0 <= i => if i < n then i else i + 1);
    Reorder(m, head, all, all', f);
    SpareEmpty(spares, s);
  }

  // ---------- the list of groups ----------

  lemma AddBytes(m: seq<Byte>, p: nat, n: nat, q: nat, b: nat)
    requires p + LINK <= |m| && n + LINK <= |m| && q + LINK <= |m| && p < WORD && n < WORD && q < WORD
    requires b < |m| && !(p <= b < p + LINK) && !(n <= b < n + LINK) && !(q <= b < q + LINK)
    ensures AddBetween(m, p, n, q)[b] == m[b]
  {
    var m1 := SetNext(m, p, n);
    var m2 := SetPrev(m1, q, n);
    var m3 := SetPrev(m2, n, p);
    assert m3[b] == m2[b] == m1[b] == m[b];
  }

  lemma DelBytes(m: seq<Byte>, p: nat, n: nat, q: nat, b: nat)
    requires p + LINK <= |m| && n + LINK <= |m| && q + LINK <= |m| && n < WORD && Prev(m, n) == p && Next(m, n) == q
    requires Apart(p, n) && Apart(q, n) && p != n && q != n
    requires b < |m| && !(p <= b < p + LINK) && !(n <= b < n + LINK) && !(q <= b < q + LINK)
    ensures Del(m, n)[b] == m[b]
  {
    var m1 := SetNext(m, p, q);
    assert Next(m1, n) == q && Prev(m1, n) == p;
    var m2 := SetPrev(m1, q, p);
    assert m2[b] == m1[b] == m[b];
  }

  /** Only the list head and the list_nodes of the groups change. */
  ghost predicate OnlyList(m: seq<Byte>, m': seq<Byte>, head: nat, gs: seq<Group>) {
    |m'| == |m| && forall b: nat {:trigger m'[b]} | b < |m| && !InList(head, gs, b) :: m'[b] == m[b]
  }

  ghost predicate InList(head: nat, gs: seq<Group>, b: nat) {
    head <= b < head + LINK || exists i ::
      0 <= i < |gs| && gs[i].base + GROUP_LIST_OFFSET <= b < gs[i].base + FREE_HEAD_OFFSET
  }

  lemma HeldList(m: seq<Byte>, m': seq<Byte>, head: nat, gs: seq<Group>)
    requires AllHeld(m, head, gs) && AllApart(gs) && OnlyList(m, m', head, gs)
    ensures AllHeld(m', head, gs)
  {
    forall i | 0 <= i < |gs| ensures HeldAt(m', head, gs, i) {
      assert HeldAt(m, head, gs, i);
      var g := gs[i];
      forall b | g.base <= b < g.End() && !(g.base + GROUP_LIST_OFFSET <= b < g.Head())
        ensures m'[b] == m[b] { NotInList(m, head, gs, i, b); }
      RepSame(m, m', g);
    }
  }

  /** A byte of group i but for its list_node is no part of the list. */
  lemma NotInList(m: seq<Byte>, head: nat, gs: seq<Group>, i: nat, b: nat)
    requires AllHeld(m, head, gs) && AllApart(gs) && i < |gs|
    requires gs[i].base <= b < gs[i].End() && !(gs[i].base + GROUP_LIST_OFFSET <= b < gs[i].Head())
    ensures !InList(head, gs, b) && b < |m|
  {
    assert HeldAt(m, head, gs, i);
    forall j | 0 <= j < |gs| ensures !(gs[j].base + GROUP_LIST_OFFSET <= b < gs[j].base + FREE_HEAD_OFFSET) {
      assert HeldAt(m, head, gs, j);
      SpanPositive(gs[j]);
      assert j != i ==> ApartPair(gs, if i < j then i else j, if i < j then j else i);
    }
  }

  /** A live byte is no part of the list. */
  lemma LiveNotInList(m: seq<Byte>, head: nat, groups: seq<Group>, spares: seq<Group>, b: nat)
    requires HeapValid(m, head, groups, spares) && LiveByte(groups, b)
    ensures !InList(head, groups + spares, b) && b < |m|
  {
    var e :| e in Extents(groups) && e.start <= b < e.start + e.len;
    var k, i := ExtentInside(m, head, groups, spares, e);
    assert (groups + spares)[k] == groups[k];
    NotInList(m, head, groups + spares, k, b);
  }

  lemma ListNodeIn(head: nat, groups: seq<Group>, spares: seq<Group>, k: nat, b: nat)
    requires k <= |groups| && ListRing(head, groups)[k] <= b < ListRing(head, groups)[k] + LINK
    ensures InList(head, groups + spares, b)
  {
    if k > 0 { assert (groups + spares)[k - 1] == groups[k - 1]; }
  }

  /** gs' holds groups of gs, at the positions f, each at most once. */
  ghost predicate Picks(gs: seq<Group>, gs': seq<Group>, f: seq<nat>) {
    && |f| == |gs'| && (forall i | 0 <= i < |f| :: f[i] < |gs| && gs'[i] == gs[f[i]])
    && forall i, j | 0 <= i < j < |f| :: f[i] != f[j]
  }

  lemma Reorder(m: seq<Byte>, head: nat, gs: seq<Group>, gs': seq<Group>, f: seq<nat>)
    requires AllHeld(m, head, gs) && AllApart(gs) && Picks(gs, gs', f)
    ensures AllHeld(m, head, gs') && AllApart(gs')
  {
    forall i | 0 <= i < |gs'| ensures HeldAt(m, head, gs', i) { assert HeldAt(m, head, gs, f[i]); }
    forall i, j | 0 <= i < j < |gs'| ensures ApartPair(gs', i, j) {
      assert ApartPair(gs, if f[i] < f[j] then f[i] else f[j], if f[i] < f[j] then f[j] else f[i]);
    }
  }

  /** Moving spare s to the end of the list. */
  lemma EnlistPicks(groups: seq<Group>, spares: seq<Group>, s: nat) returns (f: seq<nat>)
    requires s < |spares|
    ensures Picks(groups + spares, groups + [spares[s]] + Without(spares, s), f)
  {
    var n := |groups|;
    f := seq(n + |spares|, i requires 0 <= i => if i < n then i else if i == n then n + s else if i - n <= s
      then i - 1 else i);
  }

  /** Moving group k out of the list. */
  lemma DelistPicks(groups: seq<Group>, spares: seq<Group>, k: nat) returns (f: seq<nat>)
    requires k < |groups|
    ensures Picks(groups + spares, Without(groups, k) + (spares + [groups[k]]), f)
  {
    var n := |groups| + |spares|;
    f := seq(n, i requires 0 <= i => if i < k then i else if i + 1 < n then i + 1 else k);
  }

  lemma EnlistRing(m: seq<Byte>, head: nat, groups: seq<Group>, g: Group, n: nat) returns (p: nat)
    requires IsRing(m, ListRing(head, groups)) && Separate(m, ListRing(head, groups), n)
    requires n == g.base + GROUP_LIST_OFFSET
    ensures head + LINK <= |m| && head < WORD && n + LINK <= |m| && n < WORD && p + LINK <= |m| && p < WORD
    ensures p == Prev(m, head) == ListRing(head, groups)[|groups|]
    ensures IsRing(AddBetween(m, p, n, head), ListRing(head, groups + [g]))
  {
    var l, l' := ListRing(head, groups), ListRing(head, groups + [g]);
    p := AddTailRing(m, l, n);
    var m' := AddBetween(m, p, n, head);
    assert IsRing(m', Insert(l, |l|, n));
    AppendRing(head, groups, g);
    assert l' == Insert(l, |l|, n);
  }

  /** list_add_tail. */
  lemma AddTailRing(m: seq<Byte>, l: seq<nat>, n: nat) returns (p: nat)
    requires IsRing(m, l) && Separate(m, l, n)
    ensures l[0] + LINK <= |m| && l[0] < WORD && n + LINK <= |m| && n < WORD && p + LINK <= |m| && p < WORD
    ensures p == Prev(m, l[0]) == l[|l| - 1]
    ensures IsRing(AddBetween(m, p, n, l[0]), Insert(l, |l|, n))
  {
    RingBounds(m, l, 0);
    RingBounds(m, l, |l| - 1);
    p := l[|l| - 1];
    assert Succ(l, |l| - 1) == 0;
    AddBetweenRing(m, l, |l| - 1, n);
  }

  lemma AppendRing(head: nat, groups: seq<Group>, g: Group)
    ensures Insert(ListRing(head, groups), |groups| + 1, g.base + GROUP_LIST_OFFSET) == ListRing(head, groups + [g])
  {
    var r, r' := Insert(ListRing(head, groups), |groups| + 1, g.base + GROUP_LIST_OFFSET), ListRing(head, groups + [g]);
    forall i | 0 <= i < |r| ensures r[i] == r'[i] {
      if 0 < i <= |groups| { assert (groups + [g])[i - 1] == groups[i - 1]; }
    }
  }

  lemma RemoveRing(head: nat, groups: seq<Group>, k: nat)
    requires k < |groups|
    ensures Remove(ListRing(head, groups), k + 1) == ListRing(head, Without(groups, k))
  {
    var r, r' := Remove(ListRing(head, groups), k + 1), ListRing(head, Without(groups, k));
    forall i | 0 <= i < |r| ensures r[i] == r'[i] {
      if 0 < i { assert Without(groups, k)[i - 1] == groups[if i - 1 < k then i - 1 else i]; }
    }
  }

  lemma NodesOfGroupsApart(m: seq<Byte>, head: nat, groups: seq<Group>, spares: seq<Group>, k: nat, s: nat)
    requires AllHeld(m, head, groups + spares) && AllApart(groups + spares) && k < |groups| && s < |spares|
    ensures var a, b := groups[k].base + GROUP_LIST_OFFSET, spares[s].base + GROUP_LIST_OFFSET;
      a + LINK <= b || b + LINK <= a
  {
    var all := groups + spares;
    assert HeldAt(m, head, all, k) && all[k] == groups[k];
    assert HeldAt(m, head, all, |groups| + s) && all[|groups| + s] == spares[s];
    SpanPositive(groups[k]);
    SpanPositive(spares[s]);
    ApartSpare(groups, spares, k, s);
  }

  lemma SpareRange(m: seq<Byte>, head: nat, groups: seq<Group>, spares: seq<Group>, s: nat)
    requires HeapValid(m, head, groups, spares) && s < |spares|
    ensures spares[s].base + GROUP_SIZE <= spares[s].End() <= |m|
    ensures spares[s].End() <= head || head + LINK <= spares[s].base
  {
    HeldSpare(m, head, groups, spares, s);
    SpanPositive(spares[s]);
  }

  lemma SpareSeparate(m: seq<Byte>, head: nat, groups: seq<Group>, spares: seq<Group>, s: nat)
    requires HeapValid(m, head, groups, spares) && s < |spares|
    ensures Separate(m, ListRing(head, groups), spares[s].base + GROUP_LIST_OFFSET)
  {
    var l, g := ListRing(head, groups), spares[s];
    SpareRange(m, head, groups, spares, s);
    forall i | 0 <= i < |l|
      ensures l[i] + LINK <= g.base + GROUP_LIST_OFFSET || g.base + GROUP_LIST_OFFSET + LINK <= l[i] {
      if i > 0 { NodesOfGroupsApart(m, head, groups, spares, i - 1, s); }
    }
  }

  lemma EnlistFrame(m: seq<Byte>, head: nat, groups: seq<Group>, spares: seq<Group>, s: nat, p: nat, n: nat)
    requires s < |spares| && n == spares[s].base + GROUP_LIST_OFFSET && p == ListRing(head, groups)[|groups|]
    requires p + LINK <= |m| && n + LINK <= |m| && head + LINK <= |m| && p < WORD && n < WORD && head < WORD
    ensures OnlyList(m, AddBetween(m, p, n, head), head, groups + spares)
  {
    var m' := AddBetween(m, p, n, head);
    forall b: nat | b < |m| && !InList(head, groups + spares, b) ensures m'[b] == m[b] {
      assert (groups + spares)[|groups| + s] == spares[s];
      if p <= b < p + LINK { ListNodeIn(head, groups, spares, |groups|, b); }
      AddBytes(m, p, n, head, b);
    }
  }

  lemma EnlistReady(m: seq<Byte>, head: nat, groups: seq<Group>, spares: seq<Group>, s: nat, n: nat) returns (p: nat)
    requires HeapValid(m, head, groups, spares) && s < |spares| && n == spares[s].base + GROUP_LIST_OFFSET
    ensures head + LINK <= |m| && head < WORD && n + LINK <= |m| && n < WORD && p + LINK <= |m| && p < WORD
    ensures p == Prev(m, head) == ListRing(head, groups)[|groups|]
    ensures IsRing(AddBetween(m, p, n, head), ListRing(head, groups + [spares[s]]))
  {
    SpareSeparate(m, head, groups, spares, s);
    p := EnlistRing(m, head, groups, spares[s], n);
  }

  /** list_add_tail of a spare group. */
  lemma EnlistStep(m: seq<Byte>, head: nat, groups: seq<Group>, spares: seq<Group>, s: nat, n: nat)
    requires HeapValid(m, head, groups, spares) && s < |spares| && n == spares[s].base + GROUP_LIST_OFFSET
    ensures head + LINK <= |m| && head < WORD && n + LINK <= |m| && n < WORD && Prev(m, head) + LINK <= |m|
    ensures var m' := AddBetween(m, Prev(m, head), n, head);
      HeapValid(m', head, groups + [spares[s]], Without(spares, s)) && OnlyList(m, m', head, groups + spares)
  {
    var p := EnlistReady(m, head, groups, spares, s, n);
    EnlistFrame(m, head, groups, spares, s, p, n);
    HeldList(m, AddBetween(m, p, n, head), head, groups + spares);
    EnlistHeld(AddBetween(m, p, n, head), head, groups, spares, s);
    SpareEmpty(spares, s);
  }

  lemma EnlistHeld(m: seq<Byte>, head: nat, groups: seq<Group>, spares: seq<Group>, s: nat)
    requires AllHeld(m, head, groups + spares) && AllApart(groups + spares) && s < |spares|
    ensures AllHeld(m, head, groups + [spares[s]] + Without(spares, s))
    ensures AllApart(groups + [spares[s]] + Without(spares, s))
  {
    var f := EnlistPicks(groups, spares, s);
    Reorder(m, head, groups + spares, groups + [spares[s]] + Without(spares, s), f);
  }

  lemma SpareEmpty(spares: seq<Group>, s: nat)
    requires s < |spares| && forall i | 0 <= i < |spares| :: Live(spares[i].First(), spares[i].blocks) == []
    ensures forall i | 0 <= i < |Without(spares, s)| ::
      Live(Without(spares, s)[i].First(), Without(spares, s)[i].blocks) == []
  {
    var w := Without(spares, s);
    assert forall i | 0 <= i < |w| :: w[i] == spares[if i < s then i else i + 1];
  }

  lemma DelistRing(m: seq<Byte>, head: nat, groups: seq<Group>, k: nat)
    requires IsRing(m, ListRing(head, groups)) && k < |groups|
    ensures var n, l := groups[k].base + GROUP_LIST_OFFSET, ListRing(head, groups);
      && n + LINK <= |m| && n < WORD && Prev(m, n) == l[k] && Next(m, n) == l[Succ(l, k + 1)]
      && Prev(m, n) + LINK <= |m| && Next(m, n) + LINK <= |m|
      && Apart(Prev(m, n), n) && Apart(Next(m, n), n) && Prev(m, n) != n && Next(m, n) != n
      && IsRing(Del(m, n), ListRing(head, Without(groups, k)))
  {
    var l := ListRing(head, groups);
    Neighbours(m, l, k + 1);
    DelRing(m, l, k + 1);
    RemoveRing(head, groups, k);
  }

  lemma DelistFrame(m: seq<Byte>, head: nat, groups: seq<Group>, spares: seq<Group>, k: nat, p: nat, n: nat, q: nat)
    requires k < |groups| && n == groups[k].base + GROUP_LIST_OFFSET
    requires p == ListRing(head, groups)[k] && q == ListRing(head, groups)[Succ(ListRing(head, groups), k + 1)]
    requires p + LINK <= |m| && n + LINK <= |m| && q + LINK <= |m| && n < WORD && Prev(m, n) == p && Next(m, n) == q
    requires Apart(p, n) && Apart(q, n) && p != n && q != n
    ensures OnlyList(m, Del(m, n), head, groups + spares)
  {
    var m' := Del(m, n);
    forall b: nat | b < |m| && !InList(head, groups + spares, b) ensures m'[b] == m[b] {
      if p <= b < p + LINK { ListNodeIn(head, groups, spares, k, b); }
      if n <= b < n + LINK { ListNodeIn(head, groups, spares, k + 1, b); }
      if q <= b < q + LINK { ListNodeIn(head, groups, spares, Succ(ListRing(head, groups), k + 1), b); }
      DelBytes(m, p, n, q, b);
    }
  }

  /** list_del of group k, which has no live allocation. */
  lemma DelistStep(m: seq<Byte>, head: nat, groups: seq<Group>, spares: seq<Group>, k: nat, n: nat)
    requires HeapValid(m, head, groups, spares) && k < |groups| && n == groups[k].base + GROUP_LIST_OFFSET
    requires Live(groups[k].First(), groups[k].blocks) == []
    ensures n + LINK <= |m| && n < WORD && Prev(m, n) + LINK <= |m| && Next(m, n) + LINK <= |m| && Apart(Prev(m, n), n)
    ensures Apart(Next(m, n), n)
    ensures HeapValid(Del(m, n), head, Without(groups, k), spares + [groups[k]])
    ensures OnlyList(m, Del(m, n), head, groups + spares)
  {
    DelistRing(m, head, groups, k);
    var m' := Del(m, n);
    DelistFrame(m, head, groups, spares, k, Prev(m, n), n, Next(m, n));
    HeldList(m, m', head, groups + spares);
    var f := DelistPicks(groups, spares, k);
    Reorder(m', head, groups + spares, Without(groups, k) + (spares + [groups[k]]), f);
  }

  // ---------- what the caller of kmalloc and kfree sees ----------

  /** A new live extent e of at least size bytes, zeroed; every byte that was live is as it was. */
  ghost predicate Granted(m: seq<Byte>, groups: seq<Group>, m': seq<Byte>, groups': seq<Group>, e: Extent, size: nat) {
    && |m'| == |m| && NewExtent(groups, groups', e, size) && e.start + size <= |m|
    && (forall b | e.start <= b < e.start + size :: m'[b] == 0)
    && (forall b: nat | LiveByte(groups, b) :: b < |m| && m'[b] == m[b])
  }

  /** The extent e is live no more; every byte that stays live is as it was. */
  ghost predicate Revoked(m: seq<Byte>, groups: seq<Group>, m': seq<Byte>, groups': seq<Group>, e: Extent) {
    && |m'| == |m| && e in Extents(groups) && Extents(groups') == Extents(groups) - {e}
    && (forall b: nat | LiveByte(groups', b) :: b < |m| && m'[b] == m[b])
  }

  lemma PlacedGranted(m: seq<Byte>, groups: seq<Group>, m': seq<Byte>, groups': seq<Group>, k: nat, i: nat, addr: nat,
    size: nat)
    requires Placed(m, groups, m', groups', k, i, addr, size)
    ensures Granted(m, groups, m', groups', Extent(addr, Cut(groups[k].blocks[i].size, size)[0].size), size)
  {
  }

  lemma {:induction false} EmptyGroupExtents(groups: seq<Group>, g: Group)
    requires Live(g.First(), g.blocks) == []
    ensures Extents(groups + [g]) == Extents(groups)
  {
    var gs := groups + [g];
    forall e ensures e in Extents(gs) <==> e in Extents(groups) {
      if e in Extents(gs) {
        var k :| 0 <= k < |gs| && e in Live(gs[k].First(), gs[k].blocks);
        assert gs[k] == groups[k];
      }
      if e in Extents(groups) {
        var k :| 0 <= k < |groups| && e in Live(groups[k].First(), groups[k].blocks);
        assert gs[k] == groups[k];
      }
    }
  }

  lemma EmptyGroupDropped(groups: seq<Group>, k: nat)
    requires k < |groups| && Live(groups[k].First(), groups[k].blocks) == []
    ensures Extents(Without(groups, k)) == Extents(groups)
  {
    var gs := Without(groups, k);
    forall e ensures e in Extents(gs) <==> e in Extents(groups) {
      if e in Extents(gs) {
        var i :| 0 <= i < |gs| && e in Live(gs[i].First(), gs[i].blocks);
        assert gs[i] == groups[if i < k then i else i + 1];
      }
      if e in Extents(groups) {
        var i :| 0 <= i < |groups| && e in Live(groups[i].First(), groups[i].blocks);
        assert gs[if i < k then i else i - 1] == groups[i];
      }
    }
  }

  /** Listing an empty group before allocating in it. */
  lemma GrantedAfterEnlist(m0: seq<Byte>, m1: seq<Byte>, m2: seq<Byte>, head: nat, groups: seq<Group>,
    spares: seq<Group>, g: Group,
                           groups': seq<Group>, e: Extent, size: nat)
    requires HeapValid(m0, head, groups, spares) && OnlyList(m0, m1, head, groups + spares)
    requires Live(g.First(), g.blocks) == []
    requires Granted(m1, groups + [g], m2, groups', e, size)
    ensures Granted(m0, groups, m2, groups', e, size)
  {
    EmptyGroupExtents(groups, g);
    forall b: nat | LiveByte(groups, b) ensures b < |m0| && m2[b] == m0[b] {
      LiveNotInList(m0, head, groups, spares, b);
      assert LiveByte(groups + [g], b);
    }
  }

  /** Setting up a group in unused memory before allocating. */
  lemma GrantedAfterCreate(m0: seq<Byte>, m1: seq<Byte>, m2: seq<Byte>, head: nat, groups: seq<Group>,
    spares: seq<Group>, lo: nat, hi: nat,
                           groups': seq<Group>, e: Extent, size: nat, granted: bool)
    requires HeapValid(m0, head, groups, spares) && OnlyIn(m0, m1, lo, hi) && Unused(head, groups, spares, lo, hi)
    requires granted ==> Granted(m1, groups, m2, groups', e, size)
    ensures granted ==> Granted(m0, groups, m2, groups', e, size)
  {
    if granted {
      forall b: nat | LiveByte(groups, b) ensures b < |m0| && m2[b] == m0[b] {
        var f :| f in Extents(groups) && f.start <= b < f.start + f.len;
        var k, i := ExtentInside(m0, head, groups, spares, f);
      }
    }
  }

  /** The extent of the allocated block i of a group. */
  lemma BlockExtent(g: Group, i: nat, addr: nat) returns (j: nat)
    requires i < |g.blocks| && !g.blocks[i].free && addr == g.First() + Span(g.blocks[..i]) + HEADER_SIZE
    ensures j < |Live(g.First(), g.blocks)| && Live(g.First(), g.blocks)[j] == Extent(addr, g.blocks[i].size)
    ensures Live(g.First(), g.blocks[..i]) + Live(addr + g.blocks[i].size,
      g.blocks[i + 1..]) == Without(Live(g.First(), g.blocks), j)
  {
    Parts(g.blocks, i);
    Around(g.First(), g.blocks[..i], g.blocks[i], g.blocks[i + 1..]);
    j := |Live(g.First(), g.blocks[..i])|;
  }

  lemma WithoutMembers(l: seq<Extent>, j: nat, e: Extent)
    requires j < |l| && forall i | 0 <= i < |l| && i != j :: l[i] != l[j]
    ensures e in Without(l, j) <==> e in l && e != l[j]
  {
    var w := Without(l, j);
    assert forall i | 0 <= i < |w| :: w[i] == l[if i < j then i else i + 1];
    if e in l && e != l[j] {
      var i :| 0 <= i < |l| && l[i] == e;
      assert w[if i < j then i else i - 1] == e;
    }
  }

  lemma OnlyOnce(at: nat, bs: seq<Block>, j: nat, e: Extent)
    requires BigEnough(bs) && j < |Live(at, bs)|
    ensures e in Without(Live(at, bs), j) <==> e in Live(at, bs) && e != Live(at, bs)[j]
  {
    var l := Live(at, bs);
    forall i | 0 <= i < |l| && i != j ensures l[i] != l[j] {
      LiveWithin(at, bs, j);
      if i < j { LiveDisjoint(at, bs, i, j); } else { LiveDisjoint(at, bs, j, i); }
    }
    WithoutMembers(l, j, e);
  }

  lemma Dropped(groups: seq<Group>, k: nat, g': Group, j: nat, f: Extent)
    requires k < |groups| && g' == groups[k].(blocks := g'.blocks) && BigEnough(groups[k].blocks)
    requires j < |Live(groups[k].First(), groups[k].blocks)|
    requires Live(g'.First(), g'.blocks) == Without(Live(groups[k].First(), groups[k].blocks), j)
    requires forall i | 0 <= i < |groups| && i != k ::
      Live(groups[k].First(), groups[k].blocks)[j] !in Live(groups[i].First(), groups[i].blocks)
    ensures f in Extents(groups[k := g']) <==> f in Extents(groups) && f != Live(groups[k].First(), groups[k].blocks)[j]
  {
    ExtentsUpdate(groups, k, g', f);
    OnlyOnce(groups[k].First(), groups[k].blocks, j, f);
  }

  /** Releasing removes one extent. */
  lemma ReleaseExtents(m: seq<Byte>, head: nat, groups: seq<Group>, spares: seq<Group>, k: nat, i: nat, addr: nat,
    g': Group)
    requires HeapValid(m, head, groups, spares) && k < |groups| && i < |groups[k].blocks| && !groups[k].blocks[i].free
    requires g' == groups[k].(blocks := g'.blocks)
    requires addr == groups[k].First() + Span(groups[k].blocks[..i]) + HEADER_SIZE
    requires Live(g'.First(), g'.blocks) ==
      Live(groups[k].First(), groups[k].blocks[..i]) + Live(addr + groups[k].blocks[i].size, groups[k].blocks[i + 1..])
    ensures var e := Extent(addr, groups[k].blocks[i].size);
      e in Extents(groups) && Extents(groups[k := g']) == Extents(groups) - {e}
  {
    var g := groups[k];
    var j := BlockExtent(g, i, addr);
    var e := Live(g.First(), g.blocks)[j];
    HeldGroup(m, head, groups, spares, k);
    ExtentsAt(groups, k, j);
    NotElsewhere(m, head, groups, spares, k, j);
    forall f ensures f in Extents(groups[k := g']) <==> f in Extents(groups) && f != e { Dropped(groups, k, g', j, f); }
  }

  /** An extent of group k is in no other group. */
  lemma NotElsewhere(m: seq<Byte>, head: nat, groups: seq<Group>, spares: seq<Group>, k: nat, j: nat)
    requires HeapValid(m, head, groups, spares) && k < |groups| && j < |Live(groups[k].First(), groups[k].blocks)|
    ensures forall i | 0 <= i < |groups| && i != k ::
      Live(groups[k].First(), groups[k].blocks)[j] !in Live(groups[i].First(), groups[i].blocks)
  {
    var e := Live(groups[k].First(), groups[k].blocks)[j];
    HeldGroup(m, head, groups, spares, k);
    LiveWithin(groups[k].First(), groups[k].blocks, j);
    forall i | 0 <= i < |groups| && i != k ensures e !in Live(groups[i].First(), groups[i].blocks) {
      HeldGroup(m, head, groups, spares, i);
      ApartAt(groups, spares, k, i);
      var l := Live(groups[i].First(), groups[i].blocks);
      forall x | 0 <= x < |l| ensures l[x] != e { LiveWithin(groups[i].First(), groups[i].blocks, x); }
    }
  }

  /** The live bytes of the new groups are as they were, since only group k was written and only outside its live
      blocks. */
  lemma RevokedBytes(m: seq<Byte>, m': seq<Byte>, head: nat, groups': seq<Group>, spares: seq<Group>, k: nat)
    requires HeapValid(m', head, groups', spares) && k < |groups'| && Safe(m, m', groups'[k]) && |m'| == |m|
    ensures forall b: nat | LiveByte(groups', b) :: b < |m| && m'[b] == m[b]
  {
    forall b: nat | LiveByte(groups', b) ensures b < |m| && m'[b] == m[b] {
      LiveKept(m', head, groups', spares, k, b);
    }
  }

  /** What kfree_in_group does, seen from the whole heap. */
  lemma RevokeStep(m: seq<Byte>, m': seq<Byte>, head: nat, groups: seq<Group>, spares: seq<Group>, k: nat, i: nat,
    addr: nat, g: Group, g': Group)
    requires HeapValid(m, head, groups, spares) && k < |groups| && g == groups[k] && i < |g.blocks| && !g.blocks[i].free
    requires Rep(m', g') && g'.Valid() && Safe(m, m', g') && g' == g.(blocks := g'.blocks)
    requires addr == g.First() + Span(g.blocks[..i]) + HEADER_SIZE
    requires Live(g.First(), g'.blocks) ==
      Live(g.First(), g.blocks[..i]) + Live(addr + g.blocks[i].size, g.blocks[i + 1..])
    ensures HeapValid(m', head, groups[k := g'], spares)
    ensures Revoked(m, groups, m', groups[k := g'], Extent(addr, g.blocks[i].size))
  {
    SafeOutside(m, m', g');
    assert Outside(m, m', g);
    GroupStep(m, m', head, groups, spares, k, g');
    ReleaseExtents(m, head, groups, spares, k, i, addr, g');
    RevokedBytes(m, m', head, groups[k := g'], spares, k);
  }

  // ---------- walking the list of groups ----------

  /** The list_node a walk is at after n groups. */
  function NodeAt(head: nat, gs: seq<Group>, n: nat): nat
    requires n <= |gs|
  {
    if n == |gs| then head else gs[n].base + GROUP_LIST_OFFSET
  }

  lemma WalkStart(m: seq<Byte>, head: nat, groups: seq<Group>, spares: seq<Group>)
    requires HeapValid(m, head, groups, spares)
    ensures head + LINK <= |m| && Next(m, head) == NodeAt(head, groups, 0)
  {
    RingBounds(m, ListRing(head, groups), 0);
  }

  /** The walk ends at the list head. */
  lemma WalkEnd(m: seq<Byte>, head: nat, groups: seq<Group>, spares: seq<Group>, n: nat)
    requires HeapValid(m, head, groups, spares) && n <= |groups| && NodeAt(head, groups, n) == head
    ensures n == |groups|
  {
    if n < |groups| { WalkNext(m, head, groups, spares, n); }
  }

  /** A walk at the node of group n: the walk is not at its end, and goes on to the next group. */
  lemma WalkNext(m: seq<Byte>, head: nat, groups: seq<Group>, spares: seq<Group>, n: nat)
    requires HeapValid(m, head, groups, spares) && n < |groups|
    ensures NodeAt(head, groups, n) != head && NodeAt(head, groups, n) + LINK <= |m|
    ensures Next(m, NodeAt(head, groups, n)) == NodeAt(head, groups, n + 1)
  {
    RingBounds(m, ListRing(head, groups), n + 1);
    NodesApart(m, ListRing(head, groups), 0, n + 1);
  }

  /** Group k holds addr, and no other does; k is the number of groups when none does. */
  ghost predicate Holds(groups: seq<Group>, k: nat, addr: nat) {
    && k <= |groups|
    && (k < |groups| ==> Inside(groups, k, addr))
    && (k == |groups| ==> forall j {:trigger Inside(groups, j, addr)} | 0 <= j < |groups| :: !Inside(groups, j, addr))
  }

  ghost predicate Inside(groups: seq<Group>, j: nat, addr: nat) {
    j < |groups| && groups[j].base <= addr < groups[j].End()
  }

  predicate AddrInGroup(m: seq<Byte>, g: nat, addr: nat)
    requires g + GROUP_SIZE <= |m|
  {
    g <= addr < g + Read(m, g + 4) * PAGE_SIZE
  }

  /** addr_in_group says so. */
  lemma HoldsAt(m: seq<Byte>, head: nat, groups: seq<Group>, spares: seq<Group>, k: nat, n: nat, addr: nat)
    requires HeapValid(m, head, groups, spares) && Holds(groups, k, addr) && n < |groups|
    ensures groups[n].base + GROUP_SIZE <= |m| && (AddrInGroup(m, groups[n].base, addr) <==> n == k)
  {
    GroupFields(m, head, groups, spares, n);
    assert AddrInGroup(m, groups[n].base, addr) <==> Inside(groups, n, addr);
    if k < |groups| && n != k { ApartAt(groups, spares, n, k); }
  }

  /** do_kfree at the node of group n on its way to group k: it stops there or goes on. */
  lemma Visit(m: seq<Byte>, head: nat, groups: seq<Group>, spares: seq<Group>, k: nat, n: nat, addr: nat)
    requires HeapValid(m, head, groups, spares) && Holds(groups, k, addr) && n <= k && NodeAt(head, groups, n) != head
    ensures n < |groups| && NodeAt(head, groups, n) == groups[n].base + GROUP_LIST_OFFSET
    ensures groups[n].base + GROUP_SIZE <= |m|
    ensures (AddrInGroup(m, groups[n].base, addr) <==> n == k) && NodeAt(head, groups, n) + LINK <= |m|
    ensures n < k ==> Next(m, NodeAt(head, groups, n)) == NodeAt(head, groups, n + 1)
  {
    HoldsAt(m, head, groups, spares, k, n, addr);
    WalkNext(m, head, groups, spares, n);
  }

  /** group->free equals group->size exactly when the group has no live allocation, and then one FREE node is left. */
  lemma GroupEmptyIff(m: seq<Byte>, g: Group)
    requires Rep(m, g) && g.Valid()
    ensures Read(m, g.base) == Read(m, g.base + FREE_OFFSET) <==> Live(g.First(), g.blocks) == []
    ensures Read(m, g.base) == Read(m, g.base + FREE_OFFSET) <==> |g.blocks| == 1 && g.blocks[0].free
  {
    SpanPositive(g);
    EmptyIff(g.First(), g.blocks);
  }

  /** Taking an empty group off the list changes no live byte. */
  lemma RevokedAfterDelist(m0: seq<Byte>, m1: seq<Byte>, m2: seq<Byte>, head: nat, groups0: seq<Group>,
    groups1: seq<Group>, spares: seq<Group>,
                           groups2: seq<Group>, e: Extent)
    requires HeapValid(m1, head, groups1, spares) && Revoked(m0, groups0, m1, groups1, e)
    requires Extents(groups2) == Extents(groups1) && OnlyList(m1, m2, head, groups1 + spares)
    ensures Revoked(m0, groups0, m2, groups2, e)
  {
    forall b: nat | LiveByte(groups2, b) ensures b < |m0| && m2[b] == m0[b] {
      assert LiveByte(groups1, b);
      LiveNotInList(m1, head, groups1, spares, b);
    }
  }

  // ---------- the size of a new group ----------

  /** ceil_x_over_y_u32. */
  function CeilDiv(x: nat, y: nat): nat
    requires y > 0
  {
    x / y + if x % y == 0 then 0 else 1
  }

  /** The pages do_kmalloc asks for: it adds sizeof a pointer where the struct group was meant. */
  function NewPages(request: Word): nat { CeilDiv((request + 4 + HEADER_SIZE) % WORD, PAGE_SIZE) }

  /** A request fits in the group made for it exactly when the struct group costs no page more than the pointer does. */
  lemma NewGroupFits(request: Word)
    ensures NewPages(request) > 0 ==>
      (Max(request, MIN_SIZE) <= NewPages(request) * PAGE_SIZE - GROUP_SIZE - HEADER_SIZE <==>
       request + 8 < WORD && CeilDiv(request + 8, PAGE_SIZE) == CeilDiv(request + GROUP_SIZE + HEADER_SIZE, PAGE_SIZE))
    ensures NewPages(request) == 0 <==> request == WORD - 8
  {
    var x, y := request + 8, request + 32;
    if x < WORD {
      assert x % WORD == x;
      assert y == x + 24;
      assert CeilDiv(y, PAGE_SIZE) == CeilDiv(x, PAGE_SIZE) <==> y <= CeilDiv(x, PAGE_SIZE) * PAGE_SIZE;
    } else {
      assert x % WORD == x - WORD;
      assert NewPages(request) <= 1;
    }
  }

  /** A request of 4066 bytes does not fit in the page allocated for it. */
  lemma NewGroupTooSmall()
    ensures NewPages(4066) == 1 && NoFit(NewGroup(0, NewPages(4066)).blocks, 4066)
  {
  }

  lemma NewGroupFit(request: Word, base: nat)
    requires NewPages(request) > 0
    ensures var g := NewGroup(base, NewPages(request));
      NoFit(g.blocks, Max(request, MIN_SIZE)) <==> g.Capacity() < Max(request, MIN_SIZE)
  {
    assert NewGroup(base, NewPages(request)).blocks[0].free;
  }

  // ---------- several cpus ----------

  /** The heap at a moment when nobody has KMALLOC_LOCK. */
  datatype HeapState = HeapState(mem: seq<Byte>, head: nat, groups: seq<Group>, spares: seq<Group>)
  {
    ghost predicate Sound() { HeapValid(mem, head, groups, spares) }
  }

  /** The live allocations agree except for e. */
  ghost predicate AgreeBut(groups: seq<Group>, groups': seq<Group>, e: Extent) {
    forall f | f != e :: f in Extents(groups) <==> f in Extents(groups')
  }

  /** No byte changes that is live before and after. */
  ghost predicate LiveSame(m: seq<Byte>, groups: seq<Group>, m': seq<Byte>, groups': seq<Group>) {
    |m'| == |m| && forall b: nat | LiveByte(groups, b) && LiveByte(groups', b) :: b < |m| && m'[b] == m[b]
  }

  /** At most one allocation is added or dropped, and the others keep their contents. */
  ghost predicate OneExtent(m: seq<Byte>, groups: seq<Group>, m': seq<Byte>, groups': seq<Group>) {
    (exists e :: AgreeBut(groups, groups', e)) && LiveSame(m, groups, m', groups')
  }

  lemma GrantedIsOne(m: seq<Byte>, groups: seq<Group>, m': seq<Byte>, groups': seq<Group>, e: Extent, size: nat)
    requires Granted(m, groups, m', groups', e, size)
    ensures OneExtent(m, groups, m', groups')
  {
    assert AgreeBut(groups, groups', e);
  }

  lemma PlacedIsOne(m: seq<Byte>, groups: seq<Group>, m': seq<Byte>, groups': seq<Group>, k: nat, i: nat, addr: nat,
    size: nat)
    requires Placed(m, groups, m', groups', k, i, addr, size)
    ensures OneExtent(m, groups, m', groups')
  {
    assert AgreeBut(groups, groups', Extent(addr, Cut(groups[k].blocks[i].size, size)[0].size));
  }

  lemma RevokedIsOne(m: seq<Byte>, groups: seq<Group>, m': seq<Byte>, groups': seq<Group>, e: Extent)
    requires Revoked(m, groups, m', groups', e)
    ensures OneExtent(m, groups, m', groups')
  {
    assert AgreeBut(groups, groups', e);
  }

  lemma SameIsOne(m: seq<Byte>, groups: seq<Group>, m': seq<Byte>, groups': seq<Group>)
    requires Extents(groups') == Extents(groups) && LiveSame(m, groups, m', groups')
    ensures OneExtent(m, groups, m', groups')
  {
    assert AgreeBut(groups, groups', Extent(0, 0));
  }

  lemma UnchangedIsOne(m: seq<Byte>, head: nat, groups: seq<Group>, spares: seq<Group>)
    requires HeapValid(m, head, groups, spares)
    ensures OneExtent(m, groups, m, groups)
  {
    forall b: nat | LiveByte(groups, b) ensures b < |m| { LiveInMemory(m, head, groups, spares, b); }
    SameIsOne(m, groups, m, groups);
  }

  lemma LiveInMemory(m: seq<Byte>, head: nat, groups: seq<Group>, spares: seq<Group>, b: nat)
    requires HeapValid(m, head, groups, spares) && LiveByte(groups, b)
    ensures b < |m|
  {
    var f :| f in Extents(groups) && f.start <= b < f.start + f.len;
    var k, i := ExtentInside(m, head, groups, spares, f);
    HeldGroup(m, head, groups, spares, k);
  }

  lemma CreatedIsOne(m: seq<Byte>, m': seq<Byte>, head: nat, groups: seq<Group>, spares: seq<Group>, lo: nat, hi: nat)
    requires HeapValid(m, head, groups, spares) && OnlyIn(m, m', lo, hi) && Unused(head, groups, spares, lo, hi)
    ensures OneExtent(m, groups, m', groups)
  {
    forall b: nat | LiveByte(groups, b) ensures b < |m| && m'[b] == m[b] {
      LiveInMemory(m, head, groups, spares, b);
      var f :| f in Extents(groups) && f.start <= b < f.start + f.len;
      var k, i := ExtentInside(m, head, groups, spares, f);
    }
    SameIsOne(m, groups, m', groups);
  }

  lemma EnlistedIsOne(m: seq<Byte>, m': seq<Byte>, head: nat, groups: seq<Group>, spares: seq<Group>, g: Group)
    requires HeapValid(m, head, groups, spares) && OnlyList(m, m', head, groups + spares)
    requires Live(g.First(), g.blocks) == []
    ensures OneExtent(m, groups, m', groups + [g])
  {
    EmptyGroupExtents(groups, g);
    forall b: nat | LiveByte(groups, b) ensures b < |m| && m'[b] == m[b] {
      LiveInMemory(m, head, groups, spares, b);
      LiveNotInList(m, head, groups, spares, b);
    }
    SameIsOne(m, groups, m', groups + [g]);
  }

  /** What a section of the allocator under the lock, or on a group of its own outside it, does to the others: the heap
      stays sound, a group that another cpu is setting up or tearing down is left to it, at most one allocation comes or
      goes, and the others keep their contents. `own` is where its own group is. */
  ghost predicate Section(h: HeapState, h': HeapState, own: nat) {
    && h'.Sound() && h'.head == h.head && OneExtent(h.mem, h.groups, h'.mem, h'.groups)
    && (forall g | g in h.spares && g.base != own :: g in h'.spares)
  }

  ghost predicate IsSection(h: HeapState, h': HeapState, mine: nat) {
    exists own: nat :: own != mine && Section(h, h', own)
  }

  /** Any number of sections of other cpus, none of which has its group at `mine` or frees one of the allocations
      `held`. */
  ghost predicate Interference(hs: seq<HeapState>, mine: nat, held: set<Extent>) {
    && hs != [] && held <= Extents(hs[0].groups)
    && forall i {:trigger Interferes(hs, i, mine, held)} | 0 <= i < |hs| - 1 :: Interferes(hs, i, mine, held)
  }

  ghost predicate Interferes(hs: seq<HeapState>, i: nat, mine: nat, held: set<Extent>) {
    i + 1 < |hs| && IsSection(hs[i], hs[i + 1], mine) && held <= Extents(hs[i + 1].groups)
  }

  ghost predicate ByteOf(held: set<Extent>, b: nat) {
    exists e :: e in held && e.start <= b < e.start + e.len
  }

  /** The allocations `held` are still there, with their contents. */
  ghost predicate StillHeld(held: set<Extent>, m: seq<Byte>, m': seq<Byte>, groups': seq<Group>) {
    held <= Extents(groups') && |m'| == |m| && forall b: nat | ByteOf(held, b) :: b < |m| && m'[b] == m[b]
  }

  lemma HeldIsLive(held: set<Extent>, groups: seq<Group>, b: nat)
    requires held <= Extents(groups) && ByteOf(held, b)
    ensures LiveByte(groups, b)
  {
    var e :| e in held && e.start <= b < e.start + e.len;
  }

  lemma SectionHolds(m: seq<Byte>, groups: seq<Group>, m': seq<Byte>, groups': seq<Group>, held: set<Extent>)
    requires LiveSame(m, groups, m', groups') && held <= Extents(groups) && held <= Extents(groups')
    ensures StillHeld(held, m, m', groups')
  {
    forall b: nat | ByteOf(held, b) ensures b < |m| && m'[b] == m[b] {
      HeldIsLive(held, groups, b);
      HeldIsLive(held, groups', b);
    }
  }

  lemma HeldTwice(held: set<Extent>, m0: seq<Byte>, m1: seq<Byte>, groups1: seq<Group>, m2: seq<Byte>,
    groups2: seq<Group>)
    requires StillHeld(held, m0, m1, groups1) && StillHeld(held, m1, m2, groups2)
    ensures StillHeld(held, m0, m2, groups2)
  {
  }

  lemma GrantedHolds(m0: seq<Byte>, m: seq<Byte>, groups: seq<Group>, m': seq<Byte>, groups': seq<Group>, e: Extent,
    size: nat, held: set<Extent>)
    requires StillHeld(held, m0, m, groups) && Granted(m, groups, m', groups', e, size)
    ensures StillHeld(held, m0, m', groups')
  {
    SectionHolds(m, groups, m', groups', held);
    HeldTwice(held, m0, m, groups, m', groups');
  }

  /** From h0 to h the heap stays sound, the group g in the hands of its cpu, and the allocations `held` what they are.
      */
  ghost predicate Undisturbed(h0: HeapState, h: HeapState, g: Group, held: set<Extent>) {
    h.Sound() && h.head == h0.head && g in h.spares && StillHeld(held, h0.mem, h.mem, h.groups)
  }

  lemma InterferenceStart(h: HeapState, g: Group, held: set<Extent>)
    requires h.Sound() && g in h.spares && held <= Extents(h.groups)
    ensures Undisturbed(h, h, g, held)
  {
    UnchangedIsOne(h.mem, h.head, h.groups, h.spares);
    SectionHolds(h.mem, h.groups, h.mem, h.groups, held);
  }

  lemma InterferenceStep(h0: HeapState, h: HeapState, h': HeapState, mine: nat, g: Group, held: set<Extent>)
    requires Undisturbed(h0, h, g, held) && g.base == mine && IsSection(h, h', mine) && held <= Extents(h'.groups)
    ensures Undisturbed(h0, h', g, held)
  {
    SectionHolds(h.mem, h.groups, h'.mem, h'.groups, held);
    HeldTwice(held, h0.mem, h.mem, h.groups, h'.mem, h'.groups);
  }

  lemma {:induction false} InterferenceKeeps(hs: seq<HeapState>, mine: nat, g: Group, held: set<Extent>, n: nat)
    requires Interference(hs, mine, held) && hs[0].Sound() && g in hs[0].spares && g.base == mine && n < |hs|
    ensures Undisturbed(hs[0], hs[n], g, held)
  {
    if n == 0 {
      InterferenceStart(hs[0], g, held);
    } else {
      InterferenceKeeps(hs, mine, g, held, n - 1);
      assert Interferes(hs, n - 1, mine, held);
      InterferenceStep(hs[0], hs[n - 1], hs[n], mine, g, held);
    }
  }

  /** What the other cpus do from the moment the heap has these groups and spares: `others` is what becomes of memory,
      `path` the sections that lead there. */
  ghost predicate Environment(others: seq<Byte> -> seq<Byte>, path: HeapState -> seq<HeapState>, mine: nat,
                              held: set<Extent>, head: nat, groups: seq<Group>, spares: seq<Group>) {
    forall h: HeapState {:trigger path(h)} | h.Sound() && h.head == head && h.groups == groups && h.spares == spares ::
      Interference(path(h), mine, held) && path(h)[0] == h && path(h)[|path(h)| - 1].mem == others(h.mem)
  }

  lemma WithoutKeeps(s: seq<Group>, i: nat)
    requires i < |s|
    ensures forall g | g in s && g.base != s[i].base :: g in Without(s, i)
  {
    forall g | g in s && g.base != s[i].base ensures g in Without(s, i) {
      var j :| 0 <= j < |s| && s[j] == g;
      assert Without(s, i)[if j < i then j else j - 1] == g;
    }
  }

  /** No two spares are at one place. */
  lemma SpareOnce(m: seq<Byte>, head: nat, groups: seq<Group>, spares: seq<Group>, i: nat)
    requires HeapValid(m, head, groups, spares) && i < |spares|
    ensures forall g | g in Without(spares, i) :: g.base != spares[i].base
  {
    var all, rest := groups + spares, Without(spares, i);
    forall j | 0 <= j < |rest| ensures rest[j].base != spares[i].base {
      var l := if j < i then j else j + 1;
      assert rest[j] == spares[l];
      HeldSpare(m, head, groups, spares, i);
      HeldSpare(m, head, groups, spares, l);
      assert ApartPair(all, |groups| + if l < i then l else i, |groups| + if l < i then i else l);
    }
  }
}
