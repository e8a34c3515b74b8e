/**
 map_page_in, unmap_page_in and what they stand on (src/paging.c), working through
 virtual addresses: the recursive entry for the current address space, the cpu's
 temporary window for another one.
 */
module Paging {
  import opened PageTables
  import R = PageRanges
  import S = PageSearch
  import F = PageFree

  /** A virtual page: its indices in the directory and in the table. */
  datatype Page = Page(i: nat, j: nat)

  const DIR_PAGE: Page := Page(REC, REC)

  datatype Outcome = Done | NoMemory | Panic

  const WINDOW_BITS: Bits := Bits(true, false, true, true, false)

  lemma PutSame(x: World, w: World, f: Frame, k: nat, e: Entry)
    requires SameButTemp(x, w) && x.HasFrame(f) && f != x.temp && k < SLOTS
    ensures w.HasFrame(f) && SameButTemp(Put(x, f, k, e), Put(w, f, k, e))
  {
  }

  /** The world just after a table has been zeroed and before its page is entered. */
  function WithTable(w: World, d: Frame, i: nat, t: Frame, user: bool): World
    requires w.HasFrame(d) && i < TEMP
  {
    World(w.m[d := w.m[d][i := TableEntry(t, user)]][t := Blank()], w.owner, w.pool - {t}, w.temp)
  }

  /** Entering the page, and giving the table its owner, completes the mapping. */
  lemma EnterPage(w: World, d: Frame, i: nat, j: nat, e: Entry, t: Frame)
    requires CanMap(w, d, i, t) && !w.m[d][i].present && j < SLOTS && d != t
    ensures var x := WithTable(w, d, i, t, e.bits.user);
      x.HasFrame(t) && Put(x, t, j, e).(owner := w.owner[t := UseOf(d, i)]) == Map(w, d, i, j, e, t)
  {
  }

  lemma SameOwner(x: World, w: World, o: map<Frame, Use>)
    requires SameButTemp(x, w)
    ensures SameButTemp(x.(owner := o), w.(owner := o))
  {
  }

  /** The free frames do not matter to who shares a table. */
  lemma PoolMayGo(x: World, y: World, d: Frame, i: nat, j: nat)
    requires y == x.(pool := y.pool) && x.HasFrame(d) && i < TEMP
    ensures MayGo(x, d, i, j) <==> MayGo(y, d, i, j)
  {
    forall e: Frame ensures x.IsDir(e) <==> y.IsDir(e) { }
    assert Shared(x, d, i) <==> Shared(y, d, i);
    assert forall k :: x.Look(d, i, k) == y.Look(d, i, k);
  }

  class Mmu {
    /** Physical memory, the free frames, the table of the temporary windows and the directory in use. */
    var m: Memory
    var pool: set<Frame>
    const temp: Frame
    var cr3: Frame
    const cpu: nat
    ghost var owner: map<Frame, Use>

    ghost function W(): World
      reads this
    {
      World(m, owner, pool, temp)
    }

    /** Enough to reach frames through the current address space. */
    ghost predicate Reach()
      reads this
    {
      && cpu < SLOTS && W().HasFrame(cr3) && W().HasFrame(W().temp) && cr3 != W().temp
      && W().m[cr3][REC].present && W().m[cr3][REC].frame == cr3 && W().m[cr3][TEMP].present
      && W().m[cr3][TEMP].frame == W().temp
    }

    ghost predicate Valid()
      reads this
    {
      Reach() && W().Valid() && W().IsDir(cr3) && forall f | f in W().pool :: W().HasFrame(f)
    }

    function At(p: Page): Option<Frame>
      reads this
    {
      Translate(m, cr3, p.i, p.j)
    }

    constructor (world: World, dir: Frame, id: nat)
      requires world.Valid() && world.IsDir(dir) && id < SLOTS && forall f | f in world.pool :: world.HasFrame(f)
      ensures Valid() && W() == world && cr3 == dir && cpu == id
    {
      m, owner, pool, temp, cr3, cpu := world.m, world.owner, world.pool, world.temp, dir, id;
      new;
      DirFacts(world, dir);
      assert world.FrameOk(world.temp);
    }

    /** A load and a store through a virtual page. */
    method Load(p: Page, k: nat) returns (e: Entry)
      requires At(p).Some? && W().HasFrame(At(p).v) && k < SLOTS
      ensures e == W().m[At(p).v][k]
    {
      e := m[At(p).v][k];
    }

    method Store(p: Page, k: nat, e: Entry)
      requires At(p).Some? && W().HasFrame(At(p).v) && k < SLOTS
      modifies `m, `owner, `pool
      ensures W() == Put(old(W()), old(At(p)).v, k, e)
    {
      var f := At(p).v;
      m := m[f := m[f][k := e]];
    }

    /** create_temp_mapping: the window is reached through the recursive entry, so no table is ever allocated. */
    method CreateTempMapping(f: Frame) returns (p: Page)
      requires Reach() && W().HasFrame(f)
      modifies `m, `owner, `pool
      ensures Reach() && SameButTemp(old(W()), W()) && p == Page(TEMP, cpu) && At(p) == Some(f)
    {
      var table := Page(REC, TEMP);
      var e := Load(table, cpu);
      Store(table, cpu, e.(present := false));
      Store(table, cpu, Entry(true, f, WINDOW_BITS, false));
      p := Page(TEMP, cpu);
    }

    /** get_page_dir. */
    method GetPageDir(d: Frame) returns (p: Page)
      requires Reach() && W().HasFrame(d)
      modifies `m, `owner, `pool
      ensures Reach() && SameButTemp(old(W()), W()) && At(p) == Some(d) && (d == cr3 ==> W() == old(W()))
      ensures p == if d == cr3 then DIR_PAGE else Page(TEMP, cpu)
    {
      if d == cr3 { return DIR_PAGE; }
      p := CreateTempMapping(d);
    }

    /** get_page_table, given a page that resolves to the directory. */
    method GetPageTable(p: Page, i: nat, ghost d: Frame) returns (q: Page)
      requires Reach() && At(p) == Some(d) && (p == DIR_PAGE <==> d == cr3) && W().HasFrame(d) && i < TEMP
      requires W().m[d][i].present && W().HasFrame(W().m[d][i].frame)
      modifies `m, `owner, `pool
      ensures Reach() && SameButTemp(old(W()), W()) && At(q) == Some(old(W()).m[d][i].frame)
      ensures d == cr3 ==> W() == old(W())
      ensures q == if p == DIR_PAGE then Page(REC, i) else Page(TEMP, cpu)
    {
      if p == DIR_PAGE { return Page(REC, i); }
      var e := Load(p, i);
      q := CreateTempMapping(e.frame);
    }

    /** memzero of a table. */
    method ZeroPage(q: Page, ghost t: Frame)
      requires Reach() && At(q) == Some(t) && W().HasFrame(t) && t != cr3 && t != W().temp
      requires q.i == REC || q == Page(TEMP, cpu)
      modifies `m, `owner, `pool
      ensures Reach() && W() == old(W()).(m := old(W()).m[t := Blank()]) && At(q) == Some(t)
    {
      var k := 0;
      while k < SLOTS
        invariant k <= SLOTS && Reach() && W().HasFrame(t) && W() == old(W()).(m := old(W()).m[t := W().m[t]])
        invariant At(q) == Some(t)
        invariant forall x | 0 <= x < k :: W().m[t][x] == EMPTY
      {
        Store(q, k, EMPTY);
        k := k + 1;
      }
      assert W().m[t] == Blank();
    }

    /** A valid world whose windows alone change stays valid. */
    lemma StaysValid(x: World)
      requires Reach() && x.Valid() && SameButTemp(x, W()) && x.IsDir(cr3) && forall f | f in x.pool :: x.HasFrame(f)
      ensures Valid()
    {
      TempIrrelevant(x, W());
    }

    /** The part of map_page_in that makes sure the table is there; t is the frame of a new one. */
    method EnsureTable(d: Frame, i: nat, user: bool) returns (ok: bool, q: Page, ghost t: Frame)
      requires Valid() && W().IsDir(d) && i < TEMP
      modifies `m, `owner, `pool
      ensures Reach() && old(W()).HasFrame(d)
      ensures ok <==> old(W()).m[d][i].present || old(W()).pool != {}
      ensures !ok ==> SameButTemp(old(W()), W())
      ensures ok ==> CanMap(old(W()), d, i, t) && (!old(W()).m[d][i].present ==> d != t)
      ensures ok && old(W()).m[d][i].present ==> SameButTemp(old(W()), W()) && At(q) == Some(old(W()).m[d][i].frame)
      ensures ok && !old(W()).m[d][i].present ==>
        SameButTemp(WithTable(old(W()), d, i, t, user), W()) && At(q) == Some(t)
    {
      ghost var x := W();
      DirFacts(W(), d);
      t := d;
      var p := GetPageDir(d);
      var pde := Load(p, i);
      if pde.present {
        TableFacts(x, d, i);
        q := GetPageTable(p, i, d);
        return true, q, t;
      }
      if pool == {} { return false, p, t; }
      var frame :| frame in pool;
      t := frame;
      assert x.FrameOk(t) && x.FrameOk(cr3);
      q := AddTable(p, d, i, frame, user, x);
      ok := true;
    }

    /** Takes frame for the table of entry i, enters it and zeroes it. */
    method AddTable(p: Page, ghost d: Frame, i: nat, frame: Frame, user: bool, ghost x: World) returns (q: Page)
      requires Reach() && SameButTemp(x, W()) && At(p) == Some(d)
      requires p == (if d == cr3 then DIR_PAGE else Page(TEMP, cpu)) && x.HasFrame(d) && d != x.temp
      requires i < TEMP && frame in x.pool && x.HasFrame(frame) && frame != d && frame != cr3 && frame != x.temp
      modifies `m, `owner, `pool
      ensures Reach() && SameButTemp(WithTable(x, d, i, frame, user), W()) && At(q) == Some(frame)
    {
      pool := pool - {frame};
      Store(p, i, TableEntry(frame, user));
      q := GetPageTable(p, i, d);
      ZeroPage(q, frame);
    }

    /** map_page_in. In place, through either way in, it does what Map does to the frames. */
    method MapPageIn(d: Frame, i: nat, j: nat, e: Entry) returns (r: Outcome, ghost t: Frame)
      requires Valid() && W().IsDir(d) && i < TEMP && j < SLOTS && e.present
      modifies `m, `owner, `pool
      ensures Valid() && old(W()).HasFrame(d)
      ensures r == NoMemory <==> !old(W()).m[d][i].present && old(W()).pool == {}
      ensures r == Panic <==> old(W()).Look(d, i, j).Some? && old(W()).Look(d, i, j) != Some(Mapping(e.frame, e.bits))
      ensures r != Done ==> SameButTemp(old(W()), W())
      ensures r == Done ==>
        CanMap(old(W()), d, i, t) && (old(W()).m[d][i].present ==> old(W()).HasFrame(old(W()).m[d][i].frame))
      ensures r == Done ==> SameButTemp(Map(old(W()), d, i, j, e, t), W())
    {
      ghost var x := W();
      DirFacts(x, d);
      var ok, q;
      ok, q, t := EnsureTable(d, i, e.bits.user);
      if !ok {
        StaysValid(x);
        return NoMemory, t;
      }
      if x.m[d][i].present { TableFacts(x, d, i); }
      var was := Load(q, j);
      if was.present && !(was.frame == e.frame && was.bits == e.bits) {
        StaysValid(x);
        return Panic, t;
      }
      MapRefines(x, d, i, j, e, t);
      FinishMap(x, d, i, j, e, q, t);
      r := Done;
    }

    /** Enters the page. */
    method FinishMap(ghost x: World, ghost d: Frame, ghost i: nat, j: nat, e: Entry, q: Page, ghost t: Frame)
      requires Reach() && x.Valid() && x.IsDir(cr3) && CanMap(x, d, i, t) && (!x.m[d][i].present ==> d != t)
      requires j < SLOTS && e.present
      requires forall f | f in x.pool :: x.HasFrame(f)
      requires x.m[d][i].present ==> x.HasFrame(x.m[d][i].frame)
      requires Map(x, d, i, j, e, t).Valid()
      requires x.m[d][i].present ==> SameButTemp(x, W()) && At(q) == Some(x.m[d][i].frame)
      requires !x.m[d][i].present ==> SameButTemp(WithTable(x, d, i, t, e.bits.user), W()) && At(q) == Some(t)
      modifies `m, `owner, `pool
      ensures Valid() && SameButTemp(Map(x, d, i, j, e, t), W())
    {
      assert x.FrameOk(t) && x.FrameOk(cr3) && x.FrameOk(x.temp);
      if x.m[d][i].present {
        TableFacts(x, d, i);
        PutSame(x, W(), x.m[d][i].frame, j, e);
      } else {
        PutSame(WithTable(x, d, i, t, e.bits.user), W(), t, j, e);
        EnterPage(x, d, i, j, e, t);
      }
      Store(q, j, e);
      if !x.m[d][i].present {
        SameOwner(Put(WithTable(x, d, i, t, e.bits.user), t, j, e), W(), x.owner[t := UseOf(d, i)]);
        owner := owner[t := UseOf(d, i)];
      }
      StaysValid(Map(x, d, i, j, e, t));
    }

    /** page_table_is_empty. */
    method TableIsEmpty(q: Page) returns (empty: bool)
      requires At(q).Some? && W().HasFrame(At(q).v)
      ensures empty <==> IsBlank(W().m[At(q).v])
    {
      var k := 0;
      while k < SLOTS
        invariant k <= SLOTS && forall x | 0 <= x < k :: !W().m[At(q).v][x].present
      {
        var e := Load(q, k);
        if e.present { return false; }
        k := k + 1;
      }
      return true;
    }

    /** The way to table i of d, if it is there. */
    method OpenTable(d: Frame, i: nat, ghost x: World) returns (present: bool, q: Page, t: Frame)
      requires Reach() && x.Valid() && x.IsDir(d) && x.IsDir(cr3) && i < TEMP && SameButTemp(x.(pool := pool), W())
      modifies `m, `owner, `pool
      ensures Reach() && SameButTemp(x.(pool := pool), W()) && pool == old(pool) && (d == cr3 ==> W() == old(W()))
      ensures x.HasFrame(d) && d != x.temp && present == x.m[d][i].present
      ensures present ==>
        && t == x.m[d][i].frame && At(q) == Some(t) && q == (if d == cr3 then Page(REC, i) else Page(TEMP, cpu))
        && x.HasFrame(t) && W().HasFrame(t) && m[t] == x.m[t] && t != x.temp && t != d && t != cr3
    {
      DirFacts(x, d);
      var p := GetPageDir(d);
      var pde := Load(p, i);
      if !pde.present { return false, p, 0; }
      TableFacts(x, d, i);
      q := GetPageTable(p, i, d);
      present, t := true, pde.frame;
    }

    /** unmap_page_in: panics when the page is not mapped, or its frame is free already. */
    method UnmapPageIn(d: Frame, i: nat, j: nat, free: bool) returns (r: Outcome)
      requires Valid() && W().IsDir(d) && i < TEMP && j < SLOTS
      requires free && W().Look(d, i, j).Some? ==>
        W().HasFrame(W().Look(d, i, j).v.frame) && W().Look(d, i, j).v.frame !in W().owner
      modifies `m, `owner, `pool
      ensures Reach() && r != NoMemory && old(W()).HasFrame(d)
      ensures Valid() <==> r == Panic || MayGo(old(W()), d, i, j)
      ensures r == Panic <==>
        old(W()).Look(d, i, j) == None || (free && old(W()).Look(d, i, j).v.frame in old(W()).pool)
      ensures r == Panic ==> SameButTemp(old(W()), W())
      ensures r == Done ==>
        && old(W()).HasFrame(d) && old(W()).m[d][i].present && old(W()).HasFrame(old(W()).m[d][i].frame)
        && SameButTemp(Unmap(if free then Freed(old(W()), old(W()).Look(d, i, j).v.frame) else old(W()), d, i, j), W())
    {
      ghost var x := W();
      var present, q, t := OpenTable(d, i, x);
      if !present {
        StaysValid(x);
        return Panic;
      }
      var pte := Load(q, j);
      if !pte.present || (free && pte.frame in pool) {
        StaysValid(x);
        return Panic;
      }
      ghost var y := if free then Freed(x, pte.frame) else x;
      if free {
        FreedValid(x, pte.frame);
        pool := pool + {pte.frame};
      }
      UnmapValidIff(y, d, i, j);
      Remove(y, d, i, j, q, t);
      SoundIff(x, y, d, i, j);
      r := Done;
    }

    /** After the removal, everything is sound exactly when the structures are. */
    lemma SoundIff(x: World, y: World, d: Frame, i: nat, j: nat)
      requires Reach() && x.Valid() && x.IsDir(cr3) && x.HasFrame(d) && i < TEMP && j < SLOTS && x.m[d][i].present
      requires x.IsDir(d)
      requires y == x.(pool := y.pool) && y.HasFrame(y.m[d][i].frame) && (forall f | f in y.pool :: y.HasFrame(f))
      requires SameButTemp(Unmap(y, d, i, j), W()) && (Unmap(y, d, i, j).Valid() <==> MayGo(y, d, i, j))
      ensures Valid() <==> MayGo(x, d, i, j)
    {
      TableFacts(x, d, i);
      assert x.FrameOk(x.temp);
      PoolMayGo(x, y, d, i, j);
      SameValidity(Unmap(y, d, i, j), W());
    }

    /** Clears the entry, and gives up a table that has become empty. */
    method Remove(ghost y: World, d: Frame, i: nat, j: nat, q: Page, ghost t: Frame)
      requires Reach() && y.Valid() && y.IsDir(cr3) && y.IsDir(d) && y.HasFrame(d) && d != y.temp && SameButTemp(y, W())
      requires i < TEMP && j < SLOTS
      requires y.m[d][i].present && y.m[d][i].frame == t && y.HasFrame(t) && t != y.temp && t != d && t != cr3
      requires At(q) == Some(t)
      requires q == (if d == cr3 then Page(REC, i) else Page(TEMP, cpu))
      modifies `m, `owner, `pool
      ensures Reach() && SameButTemp(Unmap(y, d, i, j), W())
    {
      PutSame(y, W(), t, j, EMPTY);
      Store(q, j, EMPTY);
      ghost var z := Put(y, t, j, EMPTY);
      var empty := TableIsEmpty(q);
      if empty { GiveUp(z, d, i, t); }
    }

    /** Clears the directory entry of a table and frees its frame; the window no longer shows the directory by then. */
    method GiveUp(ghost z: World, d: Frame, i: nat, ghost t: Frame)
      requires Reach() && z.HasFrame(d) && d != z.temp && SameButTemp(z, W()) && i < TEMP && z.m[d][i].frame == t
      requires z.m[d][i].present
      modifies `m, `owner, `pool
      ensures Reach()
      ensures SameButTemp(World(Put(z, d, i, z.m[d][i].(present := false)).m, z.owner - {t}, z.pool + {t}, z.temp), W())
    {
      var p := GetPageDir(d);
      var pde := Load(p, i);
      PutSame(z, W(), d, i, pde.(present := false));
      Store(p, i, pde.(present := false));
      pool := pool + {pde.frame};
      owner := owner - {t};
    }

    /** do_paging_map_in on n user pages from page s to n frames from f0. It ends at the first page that the free
        frames do not suffice for or that is mapped otherwise. In the first case the pages before are unmapped again,
        which restores the address space exactly when none of them was mapped. */
    method MapRange(d: Frame, s: nat, n: nat, f0: Frame, bits: Bits) returns (r: Outcome, ghost k: nat)
      requires Valid() && W().IsDir(d) && s + n <= KERNEL * SLOTS
      modifies `m, `owner, `pool
      ensures Valid() && old(W()).HasFrame(d) && k == R.FirstFailure(old(W()), d, s, n, f0, bits, 0)
      ensures r == Done <==> k == n
      ensures r == NoMemory <==> k < n && R.Starves(old(W()), d, s, k)
      ensures r == Panic <==> k < n && R.Conflicts(old(W()), d, s, k, f0, bits)
      ensures r != NoMemory ==> R.Stage(old(W()), W(), d, s, 0, k, f0, bits)
      ensures r == NoMemory ==> R.Stage(old(W()), W(), d, s, k, k, f0, bits)
      ensures r == NoMemory ==>
        (R.SameMap(old(W()), W(), d) && pool == old(pool) && owner == old(owner) <==>
         forall p: nat | s <= p < s + k :: R.At(old(W()), d, p) == None)
    {
      ghost var w0 := W();
      var i;
      r, i := MapPages(d, s, n, f0, bits, w0);
      k := i;
      if r == NoMemory {
        Rollback(w0, d, s, i, f0, bits);
        R.RestoredIff(w0, W(), d, s, i, f0, bits);
      }
    }

    /** Its loop, up to the first failure. */
    method MapPages(d: Frame, s: nat, n: nat, f0: Frame, bits: Bits, ghost w0: World) returns (r: Outcome, i: nat)
      requires Valid() && w0 == W() && w0.IsDir(d) && s + n <= KERNEL * SLOTS
      modifies `m, `owner, `pool
      ensures Valid() && w0.HasFrame(d) && i == R.FirstFailure(w0, d, s, n, f0, bits, 0)
      ensures r == Done <==> i == n
      ensures r == NoMemory <==> i < n && R.Starves(w0, d, s, i)
      ensures r == Panic <==> i < n && R.Conflicts(w0, d, s, i, f0, bits)
      ensures R.Stage(w0, W(), d, s, 0, i, f0, bits) && R.Grown(w0, W(), d)
    {
      i := 0;
      R.RangeStart(w0, d, s, f0, bits);
      while i < n
        invariant i <= n && Valid() && R.MappedUpTo(w0, W(), d, s, i, f0, bits)
      {
        r := MapNext(w0, d, s, i, f0, bits);
        if r != Done {
          R.FailsAt(w0, d, s, n, f0, bits, i);
          return;
        }
        i := i + 1;
      }
      R.FailsAt(w0, d, s, n, f0, bits, n);
      r := Done;
    }

    /** One page more of the range. */
    method MapNext(ghost w0: World, d: Frame, s: nat, i: nat, f0: Frame, bits: Bits) returns (r: Outcome)
      requires Valid() && w0.Valid() && w0.IsDir(d) && s + i < KERNEL * SLOTS
      requires R.MappedUpTo(w0, W(), d, s, i, f0, bits)
      modifies `m, `owner, `pool
      ensures Valid() && w0.HasFrame(d)
      ensures r == NoMemory <==> R.Starves(w0, d, s, i)
      ensures r == Panic <==> R.Conflicts(w0, d, s, i, f0, bits)
      ensures r == Done ==> R.MappedUpTo(w0, W(), d, s, i + 1, f0, bits)
      ensures r != Done ==>
        R.NoFailure(w0, d, s, i, f0, bits) && R.Stage(w0, W(), d, s, 0, i, f0, bits) && R.Grown(w0, W(), d)
    {
      ghost var w1 := W();
      assert w1.IsDir(d);
      R.NextFails(w0, w1, d, s, i, f0, bits);
      ghost var t;
      var p := s + i;
      var e := Entry(true, f0 + i, bits, false);
      r, t := MapPageIn(d, p / SLOTS, p % SLOTS, e);
      if r == Done {
        R.StageMap(w0, w1, W(), d, s, i, f0, bits, t);
        R.GrownMap(w0, w1, W(), d, p / SLOTS, p % SLOTS, e, t);
        R.SuppliedStep(w0, w1, W(), d, s, i, e, t);
      } else {
        StageTemp(w0, w1, d, s, 0, i, f0, bits);
        GrownTemp(w0, w1, d);
      }
    }

    lemma StageTemp(w0: World, w1: World, d: Frame, s: nat, lo: nat, hi: nat, f0: Frame, bits: Bits)
      requires w1.Valid() && w0.IsDir(d) && R.Stage(w0, w1, d, s, lo, hi, f0, bits) && SameButTemp(w1, W()) && Reach()
      ensures R.Stage(w0, W(), d, s, lo, hi, f0, bits)
    {
      forall x: Frame ensures W().IsDir(x) <==> w0.IsDir(x) { assert w1.IsDir(x) <==> w0.IsDir(x); }
      forall p: nat | p < TEMP * SLOTS ensures R.At(W(), d, p) == R.Expected(w0, d, s, lo, hi, f0, bits, p) {
        assert w1.IsDir(d) <==> w0.IsDir(d);
        R.TempAt(w1, W(), d, p);
        assert R.At(w1, d, p) == R.Expected(w0, d, s, lo, hi, f0, bits, p);
      }
      forall d': Frame, p: nat | w0.IsDir(d') && d' != d && p < TEMP * SLOTS
        ensures R.At(W(), d', p) == R.At(w0, d', p) {
        assert w1.IsDir(d') <==> w0.IsDir(d');
        R.TempAt(w1, W(), d', p);
        assert R.At(w1, d', p) == R.At(w0, d', p);
      }
    }

    lemma GrownTemp(w0: World, w1: World, d: Frame)
      requires R.Grown(w0, w1, d) && SameButTemp(w1, W()) && w1.Valid()
      ensures R.Grown(w0, W(), d)
    {
      DirFacts(w1, d);
      forall f ensures R.InUse(W(), f) <==> R.InUse(w1, f) { }
      assert forall f | R.InUse(w0, f) :: R.InUse(w1, f);
    }

    /** The rollback. It undoes exactly the pages of the range, whether or not they were mapped before. */
    method Rollback(ghost w0: World, d: Frame, s: nat, n: nat, ghost f0: Frame, ghost bits: Bits)
      requires Valid() && w0.Valid() && w0.IsDir(d) && s + n <= KERNEL * SLOTS && R.Stage(w0, W(), d, s, 0, n, f0, bits)
      requires R.Grown(w0, W(), d)
      modifies `m, `owner, `pool
      ensures Valid() && R.Stage(w0, W(), d, s, n, n, f0, bits)
      ensures (forall p: nat | s <= p < s + n :: R.At(w0, d, p) == None) ==> pool == w0.pool && owner == w0.owner
    {
      ghost var free := forall p: nat | s <= p < s + n :: R.At(w0, d, p) == None;
      var k := 0;
      while k < n
        invariant k <= n && Valid() && R.Stage(w0, W(), d, s, k, n, f0, bits) && (free ==> R.Grown(w0, W(), d))
      {
        UndoNext(w0, d, s, k, n, f0, bits, free);
        k := k + 1;
      }
      if free {
        forall p: nat | p < KERNEL * SLOTS ensures R.At(W(), d, p) == R.At(w0, d, p) { }
        R.GrownBack(w0, W(), d);
      }
    }

    /** The body of its loop. */
    method UndoNext(ghost w0: World, d: Frame, s: nat, k: nat, ghost n: nat, ghost f0: Frame, ghost bits: Bits,
      ghost free: bool)
      requires Valid() && w0.Valid() && w0.IsDir(d) && k < n && s + n <= KERNEL * SLOTS
      requires R.Stage(w0, W(), d, s, k, n, f0, bits)
      requires free ==> R.Grown(w0, W(), d) && forall p: nat | s <= p < s + n :: R.At(w0, d, p) == None
      modifies `m, `owner, `pool
      ensures Valid() && R.Stage(w0, W(), d, s, k + 1, n, f0, bits) && (free ==> R.Grown(w0, W(), d))
    {
      ghost var w1 := W();
      assert w1.IsDir(d);
      var p := s + k;
      assert R.At(w1, d, p) == R.Expected(w0, d, s, k, n, f0, bits, p);
      DirFacts(w1, d);
      UserMayGo(w1, d, p / SLOTS, p % SLOTS);
      var r := UnmapPageIn(d, p / SLOTS, p % SLOTS, false);
      R.StageUnmap(w0, w1, W(), d, s, k, n, n, f0, bits);
      if free {
        NotLast(w0, w1, d, s, k, n, f0, bits);
        R.GrownUnmap(w0, w1, W(), d, p / SLOTS, p % SLOTS);
      }
    }


    /** do_paging_unmap_in on n user pages from page s, with their frames or without: exactly those pages go. It panics
        at the first of them that is not mapped, or whose frame is free already or was freed with an earlier page. */
    method UnmapRange(d: Frame, s: nat, n: nat, free: bool, ghost f0: Frame, ghost bits: Bits)
      returns (r: Outcome, ghost k: nat)
      requires Valid() && W().IsDir(d) && s + n <= KERNEL * SLOTS
      requires free ==> R.DataPages(W(), d, s, n)
      modifies `m, `owner, `pool
      ensures Valid() && k == R.FirstStuck(old(W()), d, s, n, free, 0) && r == (if k == n then Done else Panic)
      ensures R.Stage(old(W()), W(), d, s, k, k, f0, bits) && R.FreedPages(old(W()), W(), d, s, k, free)
    {
      ghost var w0 := W();
      var i := 0;
      k := 0;
      while i < n
        invariant i <= n && k == i && Valid() && R.Stage(w0, W(), d, s, i, i, f0, bits)
        invariant R.FreedPages(w0, W(), d, s, i, free)
        invariant forall j | 0 <= j < i :: !R.Stuck(w0, d, s, j, free)
      {
        r := UnmapNext(w0, d, s, i, n, free, f0, bits);
        if r == Panic {
          R.FirstStuckIs(w0, d, s, n, free, 0, i);
          return;
        }
        i, k := i + 1, k + 1;
      }
      R.FirstStuckIs(w0, d, s, n, free, 0, n);
      r := Done;
    }

    /** One page less. */
    method UnmapNext(ghost w0: World, d: Frame, s: nat, i: nat, ghost n: nat, free: bool, ghost f0: Frame,
      ghost bits: Bits)
      returns (r: Outcome)
      requires Valid() && w0.Valid() && w0.IsDir(d) && i < n && s + n <= KERNEL * SLOTS
      requires free ==> R.DataPages(w0, d, s, n)
      requires R.Stage(w0, W(), d, s, i, i, f0, bits) && R.FreedPages(w0, W(), d, s, i, free)
      modifies `m, `owner, `pool
      ensures Valid() && r != NoMemory && (r == Panic <==> R.Stuck(w0, d, s, i, free))
      ensures var k := if r == Done then i + 1 else i;
        R.Stage(w0, W(), d, s, k, k, f0, bits) && R.FreedPages(w0, W(), d, s, k, free)
    {
      ghost var w1 := W();
      var p := s + i;
      assert w1.IsDir(d);
      R.NextStuck(w0, w1, d, s, i, n, free, f0, bits);
      if R.At(w1, d, p).Some? {
        DirFacts(w1, d);
        UserMayGo(w1, d, p / SLOTS, p % SLOTS);
      }
      r := UnmapPageIn(d, p / SLOTS, p % SLOTS, free);
      if r == Panic {
        StageTemp(w0, w1, d, s, i, i, f0, bits);
        R.FreedTemp(w0, w1, W(), d, s, i, free);
      } else {
        ghost var f := R.At(w1, d, p).v.frame;
        ghost var y := if free then Freed(w1, f) else w1;
        if free { FreedValid(w1, f); }
        R.StageFreed(w0, w1, y, d, s, i, f0, bits);
        R.StageUnmap(w0, y, W(), d, s, i, i, i + 1, f0, bits);
        R.FreedStep(w0, w1, W(), d, s, i, free);
      }
    }

    /** paging_map_in and then paging_unmap_in on the same range: when the first succeeds so does the second, and the
        mappings are the old ones exactly when none of the pages was mapped. */
    method MapThenUnmap(d: Frame, s: nat, n: nat, f0: Frame, bits: Bits) returns (r: Outcome)
      requires Valid() && W().IsDir(d) && s + n <= KERNEL * SLOTS
      modifies `m, `owner, `pool
      ensures Valid() && old(W()).HasFrame(d) && (r == Done <==> R.FirstFailure(old(W()), d, s, n, f0, bits, 0) == n)
      ensures r == Done ==>
        && (forall p: nat | s <= p < s + n :: R.At(W(), d, p) == None)
        && (R.SameMap(old(W()), W(), d) <==> forall p: nat | s <= p < s + n :: R.At(old(W()), d, p) == None)
    {
      ghost var w0 := W();
      ghost var k;
      r, k := MapRange(d, s, n, f0, bits);
      if r == Done {
        ghost var w1 := W();
        R.AllMapped(w0, w1, d, s, n, f0, bits);
        r, k := UnmapRange(d, s, n, false, f0, bits);
        R.StageUndone(w0, w1, W(), d, s, n, f0, bits);
        R.RestoredIff(w0, W(), d, s, n, f0, bits);
        assert forall p: nat | p < TEMP * SLOTS :: R.At(W(), d, p) == R.Expected(w0, d, s, n, n, f0, bits, p);
      }
    }

    /** A table that was there before the range was mapped has a page outside it. */
    lemma NotLast(w0: World, w1: World, d: Frame, s: nat, k: nat, n: nat, f0: Frame, bits: Bits)
      requires w0.Valid() && w1.Valid() && R.Grown(w0, w1, d) && R.Stage(w0, w1, d, s, k, n, f0, bits) && k < n
      requires s + n <= KERNEL * SLOTS
      requires forall p: nat | s <= p < s + n :: R.At(w0, d, p) == None
      requires w1.HasFrame(d) && w1.m[d][(s + k) / SLOTS].present && w1.HasFrame(w1.m[d][(s + k) / SLOTS].frame)
      ensures var i, j := (s + k) / SLOTS, (s + k) % SLOTS;
        w0.HasFrame(d) && (w0.m[d][i].present ==> !IsBlank(w1.m[w1.m[d][i].frame][j := EMPTY]))
    {
      var i, j := (s + k) / SLOTS, (s + k) % SLOTS;
      DirFacts(w0, d);
      if w0.m[d][i].present {
        TableFacts(w0, d, i);
        var x :| 0 <= x < SLOTS && w0.m[w0.m[d][i].frame][x].present;
        var p := i * SLOTS + x;
        assert p / SLOTS == i && p % SLOTS == x;
        assert R.At(w0, d, p).Some?;
        assert R.At(w1, d, p) == R.Expected(w0, d, s, k, n, f0, bits, p);
        assert x != j;
        assert w1.m[w1.m[d][i].frame][j := EMPTY][x].present;
      }
    }

    // ---------- searching an address space ----------

    /** page_is_mapped. */
    method PageIsMapped(d: Frame, p: nat) returns (mapped: bool)
      requires Valid() && W().IsDir(d) && p < S.LIMIT
      modifies `m, `owner, `pool
      ensures Valid() && SameButTemp(old(W()), W()) && (d == cr3 ==> W() == old(W()))
      ensures mapped <==> R.At(old(W()), d, p).Some?
    {
      ghost var x := W();
      var present, q, t := OpenTable(d, p / SLOTS, x);
      StaysValid(x);
      if !present { return false; }
      var pte := Load(q, p % SLOTS);
      mapped := pte.present;
    }

    /** find_next_non_mapped_page: the first unmapped page from s up, or NO_REGION. */
    method FindNextNonMapped(d: Frame, s: nat) returns (r: Option<nat>)
      requires Valid() && W().IsDir(d)
      modifies `m, `owner, `pool
      ensures Valid() && SameButTemp(old(W()), W()) && (d == cr3 ==> W() == old(W()))
      ensures r == None <==> forall q: nat | s <= q < S.LIMIT :: R.At(old(W()), d, q).Some?
      ensures r.Some? ==> s <= r.v < S.LIMIT && R.At(old(W()), d, r.v) == None
      ensures r.Some? ==> forall q: nat | s <= q < r.v :: R.At(old(W()), d, q).Some?
    {
      ghost var x := W();
      var p := s;
      while p < S.LIMIT
        invariant s <= p && (p > s ==> p <= S.LIMIT) && Valid() && SameButTemp(x, W()) && (d == cr3 ==> W() == x)
        invariant forall q: nat | s <= q < p :: R.At(x, d, q).Some?
      {
        R.TempAt(x, W(), d, p);
        var mapped := PageIsMapped(d, p);
        if !mapped { return Some(p); }
        p := p + 1;
      }
      return None;
    }

    /** The inner loop of compute_hole_size: the absent entries of a table from entry j on. */
    method CountAbsent(q: Page, j: nat) returns (n: nat)
      requires At(q).Some? && W().HasFrame(At(q).v) && j <= SLOTS
      ensures n == S.Absent(W().m[At(q).v], j)
    {
      n := 0;
      ghost var s := W().m[At(q).v];
      while j + n < SLOTS
        invariant j + n <= SLOTS && S.Absent(s, j) == n + S.Absent(s, j + n)
      {
        var e := Load(q, j + n);
        if e.present { return; }
        n := n + 1;
      }
    }

    /** One round of the outer loop of compute_hole_size. Unless the directory is the current one, its page is the
        temporary window, and looking at a table turns that to the table. */
    method CountEntry(dir: Page, ghost f: Frame, i: nat, j: nat, ghost x: World) returns (n: nat)
      requires Reach() && SameButTemp(x, W()) && At(dir) == Some(f) && (dir == DIR_PAGE <==> f == cr3)
      requires dir == DIR_PAGE || dir == Page(TEMP, cpu)
      requires x.HasFrame(f) && f != x.temp && i < TEMP && j < SLOTS
      requires x.m[f][i].present ==> x.HasFrame(x.m[f][i].frame) && x.m[f][i].frame != x.temp
      modifies `m, `owner, `pool
      ensures Reach() && SameButTemp(x, W()) && (dir == DIR_PAGE ==> W() == old(W()))
      ensures n == if x.m[f][i].present then S.Absent(x.m[x.m[f][i].frame], j) else SLOTS - j
      ensures At(dir) == Some(if x.m[f][i].present && dir != DIR_PAGE then x.m[f][i].frame else f)
    {
      var pde := Load(dir, i);
      if !pde.present { return SLOTS - j; }
      var table := GetPageTable(dir, i, f);
      n := CountAbsent(table, j);
    }

    /** compute_hole_size: the length of the hole in the current address space, and what Scan says in another. */
    method ComputeHoleSize(d: Frame, p: nat) returns (count: nat)
      requires Valid() && W().IsDir(d) && p < S.LIMIT && (d != cr3 ==> S.MapsMemory(W(), d))
      modifies `m, `owner, `pool
      ensures Valid() && SameButTemp(old(W()), W()) && count == S.Scan(old(m), d, d != cr3, p / SLOTS, p % SLOTS)
      ensures d == cr3 ==> W() == old(W()) && count == S.HoleSize(W(), d, p)
    {
      ghost var x := W();
      S.ScanIsHole(x, d, p / SLOTS, p % SLOTS);
      count := CountEntries(d, p / SLOTS, p % SLOTS, x);
      StaysValid(x);
    }

    /** Its outer loop. */
    method CountEntries(d: Frame, i0: nat, j0: nat, ghost x: World) returns (count: nat)
      requires Valid() && x == W() && x.IsDir(d) && i0 < TEMP && j0 < SLOTS && (d != cr3 ==> S.MapsMemory(x, d))
      modifies `m, `owner, `pool
      ensures Reach() && SameButTemp(x, W()) && (d == cr3 ==> W() == x) && count == S.Scan(x.m, d, d != cr3, i0, j0)
    {
      ghost var f := d;
      DirFacts(x, d);
      var i: nat, j: nat := i0, j0;
      var dir := GetPageDir(d);
      count := 0;
      while i < TEMP
        invariant i <= TEMP && j < SLOTS && Reach() && SameButTemp(x, W()) && At(dir) == Some(f)
        invariant S.Shown(x, d, f, i, j) && (d == cr3 ==> f == d && W() == x)
        invariant S.Scan(x.m, d, d != cr3, i0, j0) == count + S.Scan(x.m, f, d != cr3, i, j)
      {
        S.ShownNotDir(x, d, f, i, j);
        if x.m[f][i].present { S.ShownTable(x, d, f, i, j); }
        ghost var f' := if x.m[f][i].present && d != cr3 then x.m[f][i].frame else f;
        S.ScanEntry(x, d, f, d != cr3, i, j, f');
        var n := CountEntry(dir, f, i, j, x);
        count := count + n;
        if j + n < SLOTS { return; }
        f, i, j := f', i + 1, 0;
      }
    }

    /** do_paging_find_contiguous_non_mapped_pages_in: the lowest page from s up that compute_hole_size says starts a
        hole of at least n pages, or NO_REGION. In the current address space it does start one, below the temporary
        region. */
    method FindContiguous(d: Frame, s: nat, n: nat) returns (r: Option<nat>)
      requires Valid() && W().IsDir(d) && (d != cr3 ==> S.MapsMemory(W(), d))
      modifies `m, `owner, `pool
      ensures Valid() && SameButTemp(old(W()), W())
      ensures r == None <==> S.NoClaim(old(W()), d, d != cr3, s, S.LIMIT, n)
      ensures r.Some? ==>
        s <= r.v && S.Claims(old(W()), d, d != cr3, r.v, n) && S.NoClaim(old(W()), d, d != cr3, s, r.v, n)
      ensures d == cr3 ==> W() == old(W()) && (r == None <==> forall p: nat | s <= p :: !S.Fits(W(), d, p, n))
      ensures d == cr3 && r.Some? ==> S.Fits(W(), d, r.v, n) && forall p: nat | s <= p < r.v :: !S.Fits(W(), d, p, n)
    {
      ghost var x := W();
      S.ClaimsFit(x, d, n);
      ghost var foreign := d != cr3;
      r := FindNextNonMapped(d, s);
      while r.Some?
        invariant Valid() && SameButTemp(x, W()) && (d == cr3 ==> W() == x)
        invariant r.Some? ==> s <= r.v < S.LIMIT && R.At(x, d, r.v) == None && S.NoClaim(x, d, foreign, s, r.v, n)
        invariant r == None ==> S.NoClaim(x, d, foreign, s, S.LIMIT, n)
        decreases if r.Some? then S.LIMIT + 1 - r.v else 0
      {
        var p := r.v;
        var hole := CountFrom(d, p, x);
        if hole >= n {
          assert S.Claims(x, d, foreign, p, n);
          return;
        }
        r := NextCandidate(d, p, x);
        S.NoClaimStep(x, d, foreign, s, p, if r.Some? then r.v else S.LIMIT, n);
      }
    }

    /** compute_hole_size, told in terms of an earlier state. */
    method CountFrom(d: Frame, p: nat, ghost x: World) returns (count: nat)
      requires Valid() && x.Valid() && SameButTemp(x, W()) && (d == cr3 ==> W() == x) && x.IsDir(d) && p < S.LIMIT
      requires d != cr3 ==> S.MapsMemory(x, d)
      modifies `m, `owner, `pool
      ensures Valid() && SameButTemp(x, W()) && (d == cr3 ==> W() == x)
      ensures count == S.Scan(x.m, d, d != cr3, p / SLOTS, p % SLOTS)
    {
      DirFacts(x, d);
      if d != cr3 { S.TempMaps(x, W(), d); }
      S.ScanTemp(x, W(), d, d, d != cr3, p / SLOTS, p % SLOTS);
      count := ComputeHoleSize(d, p);
    }

    /** find_next_non_mapped_page after page p, the same way. */
    method NextCandidate(d: Frame, p: nat, ghost x: World) returns (r: Option<nat>)
      requires Valid() && x.Valid() && SameButTemp(x, W()) && (d == cr3 ==> W() == x) && x.IsDir(d) && p < S.LIMIT
      modifies `m, `owner, `pool
      ensures Valid() && SameButTemp(x, W()) && (d == cr3 ==> W() == x)
      ensures r == None ==> forall q: nat | p < q < S.LIMIT :: R.At(x, d, q).Some?
      ensures r.Some? ==>
        p < r.v < S.LIMIT && R.At(x, d, r.v) == None && forall q: nat | p < q < r.v :: R.At(x, d, q).Some?
    {
      forall q: nat | q < S.LIMIT ensures R.At(W(), d, q) == R.At(x, d, q) { R.TempAt(x, W(), d, q); }
      r := FindNextNonMapped(d, p + 1);
    }

    // ---------- whole address spaces ----------

    /** paging_setup_new_page_dir on an allocated frame. */
    method SetupNewPageDir(f: Frame)
      requires Valid() && W().HasFrame(f) && f !in W().owner && f !in W().pool
      modifies `m, `owner, `pool
      ensures Valid() && SameButTemp(F.AddDir(old(W()), cr3, f), W())
    {
      ghost var x := W();
      DirFacts(x, cr3);
      var curr := GetPageDir(cr3);
      var dest := CreateTempMapping(f);
      ZeroPage(dest, f);
      CopyKernel(curr, dest, f, x);
      owner := owner[f := Dir];
      F.AddDirValid(x, cr3, f);
      StaysValid(F.AddDir(x, cr3, f));
    }

    /** Its loop over the kernel entries, and the recursive entry at the end. */
    method CopyKernel(curr: Page, dest: Page, f: Frame, ghost x: World)
      requires Reach() && x.HasFrame(cr3) && x.HasFrame(f) && f != cr3 && f != x.temp
      requires SameButTemp(x.(m := x.m[f := Blank()]), W())
      requires curr == DIR_PAGE && dest == Page(TEMP, cpu) && At(dest) == Some(f)
      modifies `m, `owner, `pool
      ensures Reach() && SameButTemp(x.(m := x.m[f := F.NewDir(x.m, cr3, f)]), W())
    {
      var i := KERNEL;
      while i < REC
        invariant KERNEL <= i <= REC && Reach() && W().HasFrame(f) && SameButTemp(x.(m := x.m[f := W().m[f]]), W())
        invariant At(dest) == Some(f)
        invariant forall k | 0 <= k < SLOTS :: W().m[f][k] == if KERNEL <= k < i then x.m[cr3][k] else EMPTY
      {
        var e := Load(curr, i);
        Store(dest, i, e);
        i := i + 1;
      }
      F.NewDirIs(x.m, cr3, f, m[f]);
      var rec := Load(curr, REC);
      Store(dest, REC, rec.(frame := f));
    }

    /** free_frame; false is the PANIC on a frame that is free already. */
    method FreeFrame(f: Frame) returns (ok: bool)
      modifies `pool
      ensures (ok <==> f !in old(pool)) && pool == old(pool) + if ok then {f} else {}
    {
      ok := f !in pool;
      if ok { pool := pool + {f}; }
    }

    /** free_frame on the next frame f of a list, after those of l. */
    method FreeNext(f: Frame, ghost pool0: set<Frame>, ghost l: seq<Frame>, ghost rest: seq<Frame>) returns (ok: bool)
      requires F.Clean(l, pool0) && pool == pool0 + F.Elements(l)
      modifies `pool
      ensures ok ==> F.Clean(l + [f], pool0) && pool == pool0 + F.Elements(l + [f])
      ensures !ok ==> !F.Clean(l + [f] + rest, pool0)
    {
      F.CleanStep(l, f, rest, pool0);
      ok := FreeFrame(f);
    }

    /** The inner loop of paging_free_addr_space: frees what the entries of the table point at. */
    method FreeLeaves(q: Page, ghost t: Frame, ghost pool0: set<Frame>, ghost done: seq<Frame>, ghost rest: seq<Frame>)
      returns (ok: bool)
      requires At(q) == Some(t) && W().HasFrame(t) && F.Clean(done, pool0) && pool == pool0 + F.Elements(done)
      modifies `pool
      ensures ok ==> F.Clean(done + F.Leaves(m[t], 0), pool0) && pool == pool0 + F.Elements(done + F.Leaves(m[t], 0))
      ensures !ok ==> !F.Clean(done + F.Leaves(m[t], 0) + rest, pool0)
    {
      ghost var l, s := done, m[t];
      var j := 0;
      while j < SLOTS
        invariant j <= SLOTS && F.Clean(l, pool0) && pool == pool0 + F.Elements(l)
        invariant l + F.Leaves(s, j) == done + F.Leaves(s, 0)
      {
        var pte := Load(q, j);
        if pte.present {
          F.LeavesStep(l, s, j, rest);
          ok := FreeNext(pte.frame, pool0, l, F.Leaves(s, j + 1) + rest);
          if !ok { return; }
          l := l + [pte.frame];
        }
        j := j + 1;
      }
      F.LeavesEnd(l, s);
      ok := true;
    }

    /** One round of its outer loop: table i with its pages, if it is there. */
    method FreeTable(d: Frame, i: nat, ghost x: World, ghost done: seq<Frame>) returns (ok: bool, ghost l: seq<Frame>)
      requires Reach() && x.Valid() && x.IsDir(d) && x.HasFrame(d) && x.IsDir(cr3) && i < KERNEL
      requires SameButTemp(x.(pool := pool), W())
      requires F.Clean(done, x.pool) && pool == x.pool + F.Elements(done)
      modifies `m, `owner, `pool
      ensures Reach() && SameButTemp(x.(pool := pool), W())
      ensures ok ==>
        F.Clean(l, x.pool) && pool == x.pool + F.Elements(l)
          && l + F.Tables(x.m, d, i + 1) == done + F.Tables(x.m, d, i)
      ensures !ok ==> !F.Clean(done + F.Tables(x.m, d, i) + [d], x.pool)
    {
      ghost var next := F.Tables(x.m, d, i + 1);
      var present, q, t := OpenTable(d, i, x);
      l := done;
      if !present { return true, l; }
      ghost var leaves := F.Leaves(x.m[t], 0);
      F.TablesStep(x.m, d, i, t, done, leaves, next);
      ok := FreeLeaves(q, t, x.pool, done, [t] + next + [d]);
      if !ok { return; }
      l := done + leaves + [t];
      ok := FreeNext(t, x.pool, done + leaves, next + [d]);
    }

    /** paging_free_addr_space. It frees each frame once, or panics when two of them are the same or one is free
        already. */
    method FreeAddrSpace(d: Frame) returns (ok: bool)
      requires Valid() && W().IsDir(d) && W().HasFrame(d)
      requires forall k: nat, j: nat | k < KERNEL && W().Look(d, k, j).Some? ::
        W().Look(d, k, j).v.frame !in W().owner && W().HasFrame(W().Look(d, k, j).v.frame)
      modifies `m, `owner, `pool
      ensures ok <==> F.Clean(F.FreeList(old(m), d), old(pool))
      ensures ok ==> SameButTemp(F.DropDir(old(W()), d), W()) && |pool| == |old(pool)| + |F.FreeList(old(m), d)|
      ensures ok && d != cr3 ==> Valid()
      ensures ok ==> forall f ::
        f in pool <==> f in old(pool) || f == d || F.TableOf(old(W()), d, f) || F.MapsUser(old(W()), d, f)
    {
      ghost var x := W();
      ok := FreeFrames(d, x);
      if ok { Finish(x, d); }
      forall f ensures f in F.FreeList(x.m, d) <==> f == d || F.TableOf(x, d, f) || F.MapsUser(x, d, f) {
        F.FreedIff(x, d, f);
      }
    }

    /** Its loops, and the directory at the end. */
    method FreeFrames(d: Frame, ghost x: World) returns (ok: bool)
      requires Reach() && x == W() && x.Valid() && x.IsDir(d) && x.HasFrame(d) && x.IsDir(cr3)
      modifies `m, `owner, `pool
      ensures Reach() && SameButTemp(x.(pool := pool), W()) && (ok <==> F.Clean(F.FreeList(x.m, d), x.pool))
      ensures ok ==> pool == x.pool + F.Elements(F.FreeList(x.m, d))
    {
      ghost var all, done := F.Tables(x.m, d, 0), [];
      F.ListEnds(x.m, d, done);
      var i := 0;
      while i < KERNEL
        invariant i <= KERNEL && Reach() && SameButTemp(x.(pool := pool), W())
        invariant F.Clean(done, x.pool) && pool == x.pool + F.Elements(done) && done + F.Tables(x.m, d, i) == all
      {
        ghost var l;
        ok, l := FreeTable(d, i, x, done);
        if !ok { return; }
        done, i := l, i + 1;
      }
      F.ListEnds(x.m, d, done);
      ok := FreeNext(d, x.pool, done, []);
    }

    /** The frames of the address space have no use any more. */
    ghost method Finish(x: World, d: Frame)
      requires Reach() && x.Valid() && x.IsDir(d) && x.HasFrame(d) && x.IsDir(cr3) && SameButTemp(x.(pool := pool), W())
      requires forall k: nat, j: nat | k < KERNEL && x.Look(d, k, j).Some? ::
        x.Look(d, k, j).v.frame !in x.owner && x.HasFrame(x.Look(d, k, j).v.frame)
      requires F.Clean(F.FreeList(x.m, d), x.pool) && pool == x.pool + F.Elements(F.FreeList(x.m, d))
      requires forall f | f in x.pool :: x.HasFrame(f)
      modifies `owner
      ensures SameButTemp(F.DropDir(x, d), W()) && |pool| == |x.pool| + |F.FreeList(x.m, d)|
      ensures d != cr3 ==> Valid()
    {
      F.DistinctCount(F.FreeList(x.m, d));
      owner := owner - F.Elements(F.FreeList(x.m, d));
      if d != cr3 {
        F.DropDirFrames(x, d, cr3);
        StaysValid(F.DropDir(x, d));
      }
    }
  }
}
