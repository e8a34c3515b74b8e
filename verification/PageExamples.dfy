/** Worlds in which paging goes wrong. */
module PageExamples {
  import opened PageTables
  import opened Paging
  import R = PageRanges
  import S = PageSearch

  function Entries(e: map<nat, Entry>): (r: seq<Entry>)
    ensures |r| == SLOTS && forall x: nat | x < SLOTS :: r[x] == if x in e then e[x] else EMPTY
  {
    seq(SLOTS, x requires x >= 0 => if x in e then e[x] else EMPTY)
  }

  function To(f: Frame): Entry { Entry(true, f, NO_BITS, false) }

  /** A directory with one table, in frame t, as entry i. */
  function DirectoryOf(d: Frame, i: nat, t: Frame): seq<Entry> { Entries(map[i := To(t), TEMP := To(3), REC := To(d)]) }

  // ---------- a rollback that unmaps a page it did not map ----------

  /** Page 1023 of directory 1 is mapped to frame 8, by table 4; no frame is free. */
  function FullWorld(): World {
    World(map[1 := DirectoryOf(1, 0, 4), 3 := Blank(), 4 := Entries(map[1023 := To(8)])],
          map[1 := Dir, 3 := Temp, 4 := UserTable(1, 0)], {}, 3)
  }

  lemma FullWorldValid()
    ensures FullWorld().Valid() && FullWorld().IsDir(1) && R.At(FullWorld(), 1, 1023) == Some(Mapping(8, NO_BITS))
  {
    var w := FullWorld();
    assert w.m[4][1023].present;
    forall f ensures w.FrameOk(f) { }
    forall d | w.IsDir(d) && w.HasFrame(d) ensures w.DirOk(d) { }
    forall t ensures w.TableOk(t) { }
  }

  /** Mapping pages 1023 and 1024 to frames 8 and 9 starves at the second, for want of a table. */
  lemma FullWorldStarves()
    ensures FullWorld().HasFrame(1) && R.FirstFailure(FullWorld(), 1, 1023, 2, 8, NO_BITS, 0) == 1
    ensures R.Starves(FullWorld(), 1, 1023, 1)
  {
    var w := FullWorld();
    FullWorldValid();
    assert !R.NeedsTable(w, 1, 1023, 0) && R.NeedsTable(w, 1, 1023, 1);
    assert R.NewTables(w, 1, 1023, 1) == 0 && R.NewTables(w, 1, 1023, 2) == 1;
    R.FirstFailureIs(w, 1, 1023, 2, 8, NO_BITS, 0, 1);
  }

  /** The call fails, and page 1023, mapped as asked before the call, is not mapped any more. */
  method FailureUnmaps() returns (r: Outcome, mmu: Mmu)
    ensures r == NoMemory && R.At(FullWorld(), 1, 1023) == Some(Mapping(8, NO_BITS)) && R.At(mmu.W(), 1, 1023) == None
  {
    FullWorldValid();
    FullWorldStarves();
    mmu := new Mmu(FullWorld(), 1, 0);
    ghost var k;
    r, k := mmu.MapRange(1, 1023, 2, 8, NO_BITS);
    assert R.At(mmu.W(), 1, 1023) == R.Expected(FullWorld(), 1, 1023, 1, 1, 8, NO_BITS, 1023);
  }

  // ---------- a kernel table freed under another address space ----------

  /** Directories 1 and 2 share table 4 as the first kernel table; it has one page. */
  function SharedWorld(): World {
    World(map[1 := DirectoryOf(1, KERNEL, 4), 2 := DirectoryOf(2, KERNEL, 4), 3 := Blank(),
      4 := Entries(map[0 := To(8)])],
          map[1 := Dir, 2 := Dir, 3 := Temp, 4 := KernelTable(KERNEL)], {}, 3)
  }

  lemma SharedWorldValid()
    ensures SharedWorld().Valid() && SharedWorld().IsDir(1)
    ensures SharedWorld().Look(1, KERNEL, 0) == Some(Mapping(8, NO_BITS))
    ensures SharedWorld().HasFrame(1) && !MayGo(SharedWorld(), 1, KERNEL, 0)
  {
    var w := SharedWorld();
    forall f ensures w.FrameOk(f) { }
    forall d | w.IsDir(d) && w.HasFrame(d) ensures w.DirOk(d) { }
    forall t ensures w.TableOk(t) { }
    assert w.IsDir(2) && w.HasFrame(2) && w.m[2][KERNEL].present && w.m[2][KERNEL].frame == w.m[1][KERNEL].frame;
    assert forall k: nat | k < SLOTS && k != 0 :: w.Look(1, KERNEL, k) == None;
  }

  /** Unmapping that page leaves directory 2 with a table in a free frame. */
  method UnmapBreaks() returns (r: Outcome, mmu: Mmu)
    ensures r == Done && !mmu.Valid()
  {
    SharedWorldValid();
    mmu := new Mmu(SharedWorld(), 1, 0);
    r := mmu.UnmapPageIn(1, KERNEL, 0, false);
  }

  // ---------- a hole counted wrong ----------

  /** In directory 2, table 4 maps page 0 and table 5 maps page 1024; directory 1 has no user pages. */
  function HoleWorld(): World {
    World(map[1 := Entries(map[TEMP := To(3), REC := To(1)]),
              2 := Entries(map[0 := To(4), 1 := To(5), TEMP := To(3), REC := To(2)]),
              3 := Blank(), 4 := Entries(map[0 := To(8)]), 5 := Entries(map[0 := To(9)]), 8 := Blank(), 9 := Blank()],
          map[1 := Dir, 2 := Dir, 3 := Temp, 4 := UserTable(2, 0), 5 := UserTable(2, 1)], {}, 3)
  }

  lemma HoleWorldValid(w: World)
    requires w == HoleWorld()
    ensures w.Valid() && w.IsDir(1) && w.IsDir(2)
  {
    forall f ensures w.FrameOk(f) { }
    forall d | w.IsDir(d) && w.HasFrame(d) ensures w.DirOk(d) { }
    forall t ensures w.TableOk(t) { HoleWorldTable(w, t); }
  }

  lemma HoleWorldTable(w: World, t: Frame)
    requires w == HoleWorld()
    ensures w.TableOk(t)
  {
    assert w.m[4][0].present && w.m[5][0].present;
  }

  lemma HoleWorldMaps(w: World)
    requires w == HoleWorld()
    ensures S.MapsMemory(w, 2)
  {
  }

  /** The hole at page 1 has 1023 pages. */
  lemma HoleWorldHole()
    ensures S.HoleSize(HoleWorld(), 2, 1) == 1023
  {
    var w := HoleWorld();
    forall q: nat | 1 <= q < 1024 ensures R.At(w, 2, q) == None { assert q / SLOTS == 0 && q % SLOTS == q; }
    assert R.At(w, 2, 1024).Some?;
    S.HoleIs(w, 2, 1, 1023);
  }

  /** From another address space the count runs on to the temporary region. */
  lemma ForeignScanWrong()
    ensures HoleWorld().Valid() && HoleWorld().IsDir(2) && S.HoleSize(HoleWorld(), 2, 1) == 1023
    ensures S.Scan(HoleWorld().m, 2, true, 0, 1) == S.LIMIT - 1
  {
    var w := HoleWorld();
    HoleWorldValid(HoleWorld());
    HoleWorldMaps(HoleWorld());
    HoleWorldHole();
    S.AbsentFrom(w.m[4], 1);
    assert S.FirstTable(w.m, 2, 0) == 0;
    S.ForeignRunsOn(w, 2, 0, 1, 0);
  }

  method CountFrom(world: World, c: Frame, d: Frame, i: nat, j: nat) returns (count: nat)
    requires world.Valid() && world.IsDir(c) && world.IsDir(d) && c != d && S.MapsMemory(world, d) && i < TEMP
    requires j < SLOTS
    requires forall f | f in world.pool :: world.HasFrame(f)
    ensures count == S.Scan(world.m, d, true, i, j)
  {
    var mmu := new Mmu(world, c, 0);
    assert (i * SLOTS + j) / SLOTS == i && (i * SLOTS + j) % SLOTS == j;
    count := mmu.ComputeHoleSize(d, i * SLOTS + j);
  }

  /** So does compute_hole_size, called in the address space of directory 1. */
  method CountsTooMuch() returns (count: nat)
    ensures count == S.LIMIT - 1 && S.HoleSize(HoleWorld(), 2, 1) == 1023
  {
    HoleWorldValid(HoleWorld());
    HoleWorldMaps(HoleWorld());
    ForeignScanWrong();
    count := CountFrom(HoleWorld(), 1, 2, 0, 1);
  }
}
