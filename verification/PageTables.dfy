/**
 Two-level page tables (src/paging.c): frames of 1024 entries, the walk of section
 4.3 of the Intel SDM Volume 3A, and what the paging structures of all address
 spaces look like.
 */
module PageTables {
  type Frame = nat

  const SLOTS: nat := 1024
  /** KERNEL_MIN_PDE_IDX */
  const KERNEL: nat := 768
  /** TEMP_MAP_PDE_IDX */
  const TEMP: nat := 1022
  /** RECURSIVE_PDE_IDX */
  const REC: nat := 1023

  datatype Bits = Bits(write: bool, user: bool, writeThrough: bool, cacheDisable: bool, global: bool)

  /** A PDE or a PTE; `touched` stands for the accessed and dirty bits. */
  datatype Entry = Entry(present: bool, frame: Frame, bits: Bits, touched: bool)

  const NO_BITS: Bits := Bits(false, false, false, false, false)
  const EMPTY: Entry := Entry(false, 0, NO_BITS, false)

  type Memory = map<Frame, seq<Entry>>

  datatype Option<T> = None | Some(v: T)

  /** The walk of the MMU: the frame behind page j of table i. */
  function Translate(m: Memory, cr3: Frame, i: nat, j: nat): Option<Frame> {
    if cr3 in m && i < |m[cr3]| && m[cr3][i].present then
      var t := m[cr3][i].frame;
      if t in m && j < |m[t]| && m[t][j].present then Some(m[t][j].frame) else None
    else None
  }

  /** What a page is mapped to: the frame and the bits compare_ptes looks at. */
  datatype Mapping = Mapping(frame: Frame, bits: Bits)

  function Lookup(m: Memory, d: Frame, i: nat, j: nat): Option<Mapping> {
    if d in m && i < |m[d]| && m[d][i].present then
      var t := m[d][i].frame;
      if t in m && j < |m[t]| && m[t][j].present then Some(Mapping(m[t][j].frame, m[t][j].bits)) else None
    else None
  }

  /** What a frame of the paging structures is for. */
  datatype Use = Dir | Temp | UserTable(dir: Frame, index: nat) | KernelTable(index: nat)

  /** The table of entry i of directory d. */
  function UseOf(d: Frame, i: nat): Use { if i < KERNEL then UserTable(d, i) else KernelTable(i) }

  /** Physical memory as paging sees it: the contents of its frames, what they are for, and the free frames. */
  datatype World = World(m: Memory, owner: map<Frame, Use>, pool: set<Frame>, temp: Frame)
  {
    predicate IsDir(d: Frame) { d in owner && owner[d] == Dir }

    predicate HasFrame(f: Frame) { f in m && |m[f]| == SLOTS }

    predicate FrameOk(f: Frame) {
      f in owner ==> HasFrame(f) && f !in pool
    }

    /** The recursive entry, the shared table of the temporary windows, and tables that belong to their entries. */
    predicate DirOk(d: Frame)
      requires IsDir(d) && HasFrame(d)
    {
      && m[d][REC].present && m[d][REC].frame == d && m[d][TEMP].present && m[d][TEMP].frame == temp
      && forall i | 0 <= i < TEMP && m[d][i].present :: m[d][i].frame in owner && owner[m[d][i].frame] == UseOf(d, i)
    }

    /** A user table hangs off its directory and has a present entry. */
    ghost predicate TableOk(t: Frame) {
      t in owner && owner[t].UserTable? && HasFrame(t) ==>
        var d, i := owner[t].dir, owner[t].index;
        && IsDir(d) && HasFrame(d) && i < KERNEL && m[d][i].present && m[d][i].frame == t
        && exists j :: 0 <= j < SLOTS && m[t][j].present
    }

    ghost predicate Valid() {
      && temp in owner && owner[temp] == Temp
      && (forall f {:trigger FrameOk(f)} :: FrameOk(f))
      && (forall d {:trigger IsDir(d)} | IsDir(d) && HasFrame(d) :: DirOk(d))
      && (forall t {:trigger TableOk(t)} :: TableOk(t))
    }

    /** What address space d maps. */
    function Look(d: Frame, i: nat, j: nat): Option<Mapping> { Lookup(m, d, i, j) }
  }

  /** The worlds differ in the contents of the temporary windows only. */
  predicate SameButTemp(w: World, w': World) {
    w' == w.(m := w'.m) && w'.m.Keys == w.m.Keys && forall f | f in w.m && f != w.temp :: w'.m[f] == w.m[f]
  }

  function Put(w: World, f: Frame, k: nat, e: Entry): World
    requires w.HasFrame(f) && k < SLOTS
  {
    w.(m := w.m[f := w.m[f][k := e]])
  }

  // ---------- facts about valid worlds ----------

  lemma DirFacts(w: World, d: Frame)
    requires w.Valid() && w.IsDir(d)
    ensures w.HasFrame(d) && w.DirOk(d) && d !in w.pool && d != w.temp
  {
    assert w.FrameOk(d);
  }

  /** The table of entry i, for a page below the temporary region. */
  lemma TableFacts(w: World, d: Frame, i: nat)
    requires w.Valid() && w.IsDir(d) && w.HasFrame(d) && i < TEMP && w.m[d][i].present
    ensures var t := w.m[d][i].frame;
      && t in w.owner && w.owner[t] == UseOf(d, i) && w.HasFrame(t) && t !in w.pool && t != w.temp && !w.IsDir(t)
      && (i < KERNEL ==> exists j :: 0 <= j < SLOTS && w.m[t][j].present)
  {
    assert w.DirOk(d);
    assert w.FrameOk(w.m[d][i].frame) && w.TableOk(w.m[d][i].frame);
  }

  /** Two entries of one directory never share a table, and user tables are never shared at all. */
  lemma TablesDistinct(w: World, d: Frame, i: nat, d': Frame, i': nat)
    requires w.Valid() && w.IsDir(d) && w.IsDir(d') && w.HasFrame(d) && w.HasFrame(d') && i < TEMP && i' < TEMP
    requires w.m[d][i].present && w.m[d'][i'].present && (i != i' || (d != d' && i < KERNEL))
    ensures w.m[d][i].frame != w.m[d'][i'].frame
  {
    assert w.DirOk(d) && w.DirOk(d');
  }

  /** The contents of the temporary windows are nobody's business. */
  lemma TempIrrelevant(w: World, w': World)
    requires w.Valid() && SameButTemp(w, w') && w'.HasFrame(w.temp)
    ensures w'.Valid()
    ensures forall d: Frame, i: nat, j: nat | w.IsDir(d) && i < TEMP :: w'.Look(d, i, j) == w.Look(d, i, j)
  {
    forall f ensures w'.FrameOk(f) { assert w.FrameOk(f); }
    forall d | w'.IsDir(d) && w'.HasFrame(d) ensures w'.DirOk(d) { assert w.IsDir(d); DirFacts(w, d); }
    forall t ensures w'.TableOk(t) {
      assert w.TableOk(t) && w.FrameOk(t);
      if t in w.owner && w.owner[t].UserTable? { assert w.FrameOk(w.owner[t].dir); assert w'.m[t] == w.m[t]; }
    }
    forall d: Frame, i: nat, j: nat | w.IsDir(d) && i < TEMP ensures w'.Look(d, i, j) == w.Look(d, i, j) {
      DirFacts(w, d);
      if w.m[d][i].present { TableFacts(w, d, i); }
    }
  }

  lemma SameValidity(w: World, w': World)
    requires SameButTemp(w, w') && w.HasFrame(w.temp) && w'.HasFrame(w.temp)
    ensures w.Valid() <==> w'.Valid()
  {
    if w.Valid() { TempIrrelevant(w, w'); }
    if w'.Valid() { TempIrrelevant(w', w); }
  }

  // ---------- mapping and unmapping, frame by frame ----------

  /** A zeroed table. */
  function Blank(): (r: seq<Entry>)
    ensures |r| == SLOTS && forall j | 0 <= j < SLOTS :: r[j] == EMPTY
  {
    seq(SLOTS, _ => EMPTY)
  }

  /** The entry for a new table: as permissive as possible, but for the user bit of the first mapping. */
  function TableEntry(t: Frame, user: bool): Entry { Entry(true, t, Bits(true, user, false, false, false), false) }

  /** The table of entry i is there, or a free frame t can become it. */
  predicate CanMap(w: World, d: Frame, i: nat, t: Frame) {
    && w.IsDir(d) && w.HasFrame(d) && i < TEMP
    && (w.m[d][i].present || (t in w.pool && t !in w.owner))
  }

  /** map_page_in in effect. */
  function Map(w: World, d: Frame, i: nat, j: nat, e: Entry, t: Frame): World
    requires CanMap(w, d, i, t) && j < SLOTS && (w.m[d][i].present ==> w.HasFrame(w.m[d][i].frame))
  {
    if w.m[d][i].present then Put(w, w.m[d][i].frame, j, e)
    else World(w.m[d := w.m[d][i := TableEntry(t, e.bits.user)]][t := Blank()[j := e]], w.owner[t := UseOf(d, i)],
      w.pool - {t}, w.temp)
  }

  predicate IsBlank(s: seq<Entry>) { forall j | 0 <= j < |s| :: !s[j].present }

  /** The last page of table t goes, and the table with it. */
  function DropTable(w: World, d: Frame, i: nat, j: nat, t: Frame): World
    requires w.HasFrame(d) && i < TEMP && w.HasFrame(t) && j < SLOTS
  {
    var m := w.m[t := w.m[t][j := EMPTY]];
    World(m[d := m[d][i := m[d][i].(present := false)]], w.owner - {t}, w.pool + {t}, w.temp)
  }

  /** unmap_page_in in effect, when it does not free the frame. */
  function Unmap(w: World, d: Frame, i: nat, j: nat): World
    requires w.HasFrame(d) && i < TEMP && w.HasFrame(w.m[d][i].frame) && j < SLOTS
  {
    var t := w.m[d][i].frame;
    if IsBlank(w.m[t][j := EMPTY]) then DropTable(w, d, i, j, t) else Put(w, t, j, EMPTY)
  }

  /** Another directory has the same table. */
  ghost predicate Shared(w: World, d: Frame, i: nat)
    requires w.HasFrame(d) && i < TEMP
  {
    exists d': Frame ::
      w.IsDir(d') && d' != d && w.HasFrame(d') && w.m[d'][i].present && w.m[d'][i].frame == w.m[d][i].frame
  }

  /** Every page but (i, j) of d is as it was, in every address space; a kernel page is shared, so only the same page
      of other address spaces may follow. */
  ghost predicate Elsewhere(w: World, w': World, d: Frame, i: nat, j: nat) {
    forall d': Frame, i': nat, j': nat {:trigger w'.Look(d', i', j')} |
      w.IsDir(d') && i' < TEMP && (i' != i || j' != j || (d' != d && i < KERNEL)) ::
        w'.Look(d', i', j') == w.Look(d', i', j')
  }

  lemma PutLook(w: World, d: Frame, i: nat, j: nat, e: Entry)
    requires w.Valid() && w.IsDir(d) && w.HasFrame(d) && i < TEMP && j < SLOTS && w.m[d][i].present
    requires w.HasFrame(w.m[d][i].frame)
    ensures Elsewhere(w, Put(w, w.m[d][i].frame, j, e), d, i, j)
  {
    var w' := Put(w, w.m[d][i].frame, j, e);
    TableFacts(w, d, i);
    forall d': Frame, i': nat, j': nat | w.IsDir(d') && i' < TEMP && (i' != i || j' != j || (d' != d && i < KERNEL))
      ensures w'.Look(d', i', j') == w.Look(d', i', j') {
      DirFacts(w, d');
      if w.m[d'][i'].present {
        TableFacts(w, d', i');
        if i' != i || (d' != d && i < KERNEL) { TablesDistinct(w, d, i, d', i'); }
      }
    }
  }

  lemma PutValid(w: World, d: Frame, i: nat, j: nat, e: Entry)
    requires w.Valid() && w.IsDir(d) && w.HasFrame(d) && i < TEMP && j < SLOTS && w.m[d][i].present
    requires w.HasFrame(w.m[d][i].frame)
    requires e.present || !IsBlank(w.m[w.m[d][i].frame][j := e])
    ensures Put(w, w.m[d][i].frame, j, e).Valid()
  {
    var t := w.m[d][i].frame;
    var w' := Put(w, t, j, e);
    TableFacts(w, d, i);
    forall f ensures w'.FrameOk(f) { assert w.FrameOk(f); }
    forall x | w'.IsDir(x) && w'.HasFrame(x) ensures w'.DirOk(x) { assert w.IsDir(x) && w.DirOk(x); }
    forall x ensures w'.TableOk(x) {
      assert w.TableOk(x) && w.FrameOk(x);
      if x in w.owner && w.owner[x].UserTable? {
        assert w.FrameOk(w.owner[x].dir);
        if x == t { assert e.present ==> w'.m[t][j].present; } else { assert w'.m[x] == w.m[x]; }
      }
    }
  }

  lemma NewTableValid(w: World, d: Frame, i: nat, j: nat, e: Entry, t: Frame)
    requires w.Valid() && CanMap(w, d, i, t) && !w.m[d][i].present && j < SLOTS && e.present
    ensures Map(w, d, i, j, e, t).Valid()
  {
    var w' := Map(w, d, i, j, e, t);
    DirFacts(w, d);
    forall f ensures w'.FrameOk(f) { assert w.FrameOk(f); }
    forall x | w'.IsDir(x) && w'.HasFrame(x) ensures w'.DirOk(x) {
      assert w.IsDir(x);
      DirFacts(w, x);
      forall k | 0 <= k < TEMP && w'.m[x][k].present
        ensures w'.m[x][k].frame in w'.owner && w'.owner[w'.m[x][k].frame] == UseOf(x, k) {
        if x != d || k != i { assert w.m[x][k].present && w.m[x][k].frame in w.owner; }
      }
    }
    forall x ensures w'.TableOk(x) {
      assert w.TableOk(x) && w.FrameOk(x);
      if x == t { assert w'.m[t][j].present; } else if x in w.owner && w.owner[x].UserTable? {
        assert w.FrameOk(w.owner[x].dir);
        assert w'.m[x] == w.m[x];
      }
    }
  }

  lemma NewTableLook(w: World, d: Frame, i: nat, j: nat, e: Entry, t: Frame, d': Frame, i': nat, j': nat)
    requires w.Valid() && CanMap(w, d, i, t) && !w.m[d][i].present && j < SLOTS && w.IsDir(d') && i' < TEMP
    ensures Map(w, d, i, j, e, t).Look(d', i', j') == (if d' == d && i' == i && j' == j && e.present
      then Some(Mapping(e.frame, e.bits)) else w.Look(d', i', j'))
  {
    DirFacts(w, d);
    DirFacts(w, d');
    if w.m[d'][i'].present { TableFacts(w, d', i'); }
  }

  /** Mapping a page: that page is mapped as asked, every other page is as it was. */
  lemma MapRefines(w: World, d: Frame, i: nat, j: nat, e: Entry, t: Frame)
    requires w.Valid() && CanMap(w, d, i, t) && j < SLOTS && e.present
    ensures w.m[d][i].present ==> w.HasFrame(w.m[d][i].frame)
    ensures var w' := Map(w, d, i, j, e, t);
      w'.Valid() && w'.Look(d, i, j) == Some(Mapping(e.frame, e.bits)) && Elsewhere(w, w', d, i, j)
  {
    if w.m[d][i].present {
      TableFacts(w, d, i);
      PutValid(w, d, i, j, e);
      PutLook(w, d, i, j, e);
    } else {
      var w' := Map(w, d, i, j, e, t);
      NewTableValid(w, d, i, j, e, t);
      NewTableLook(w, d, i, j, e, t, d, i, j);
      forall d': Frame, i': nat, j': nat | w.IsDir(d') && i' < TEMP && (i' != i || j' != j || (d' != d && i < KERNEL))
        ensures w'.Look(d', i', j') == w.Look(d', i', j') {
        NewTableLook(w, d, i, j, e, t, d', i', j');
      }
    }
  }

  lemma DropValid(w: World, d: Frame, i: nat, j: nat, t: Frame)
    requires w.Valid() && w.IsDir(d) && w.HasFrame(d) && i < TEMP && j < SLOTS && w.m[d][i].present
    requires t == w.m[d][i].frame && w.HasFrame(t)
    requires i < KERNEL || !Shared(w, d, i)
    ensures DropTable(w, d, i, j, t).Valid()
  {
    var w' := DropTable(w, d, i, j, t);
    TableFacts(w, d, i);
    forall f ensures w'.FrameOk(f) { assert w.FrameOk(f); }
    forall x | w'.IsDir(x) && w'.HasFrame(x) ensures w'.DirOk(x) {
      assert w.IsDir(x);
      DirFacts(w, x);
      forall k | 0 <= k < TEMP && w'.m[x][k].present
        ensures w'.m[x][k].frame in w'.owner && w'.owner[w'.m[x][k].frame] == UseOf(x, k) {
        assert w.m[x][k].present && (x != d || k != i);
        if k != i || i < KERNEL { TablesDistinct(w, d, i, x, k); }
      }
    }
    forall x ensures w'.TableOk(x) {
      assert w.TableOk(x) && w.FrameOk(x);
      if x != t && x in w.owner && w.owner[x].UserTable? {
        assert w.FrameOk(w.owner[x].dir);
        assert w'.m[x] == w.m[x];
      }
    }
  }

  lemma DropLook(w: World, d: Frame, i: nat, j: nat, t: Frame)
    requires w.Valid() && w.IsDir(d) && w.HasFrame(d) && i < TEMP && j < SLOTS && w.m[d][i].present
    requires t == w.m[d][i].frame && w.HasFrame(t)
    requires IsBlank(w.m[t][j := EMPTY]) && (i < KERNEL || !Shared(w, d, i))
    ensures Elsewhere(w, DropTable(w, d, i, j, t), d, i, j) && DropTable(w, d, i, j, t).Look(d, i, j) == None
  {
    var w' := DropTable(w, d, i, j, t);
    TableFacts(w, d, i);
    forall d': Frame, i': nat, j': nat | w.IsDir(d') && i' < TEMP && (i' != i || j' != j || (d' != d && i < KERNEL))
      ensures w'.Look(d', i', j') == w.Look(d', i', j') {
      DirFacts(w, d');
      if w.m[d'][i'].present {
        TableFacts(w, d', i');
        if i' != i || (d' != d && i < KERNEL) {
          TablesDistinct(w, d, i, d', i');
        } else if d' == d {
          assert j' < SLOTS ==> w.m[t][j := EMPTY][j'] == w.m[t][j'];
        }
      }
    }
  }

  /** Unmapping a mapped page: that page is gone, every other page is as it was, and a user table goes with its last
      page. */
  lemma UnmapRefines(w: World, d: Frame, i: nat, j: nat)
    requires w.Valid() && w.IsDir(d) && i < TEMP && j < SLOTS && w.Look(d, i, j).Some?
    requires i < KERNEL || (w.HasFrame(d) && !Shared(w, d, i)) || exists k ::
      0 <= k < SLOTS && k != j && w.Look(d, i, k).Some?
    ensures w.HasFrame(d) && w.m[d][i].present && w.HasFrame(w.m[d][i].frame)
    ensures var w' := Unmap(w, d, i, j); w'.Valid() && w'.Look(d, i, j) == None && Elsewhere(w, w', d, i, j)
    ensures var last := forall k: nat | k < SLOTS && k != j :: w.Look(d, i, k) == None;
      Unmap(w, d, i, j).pool == if last then w.pool + {w.m[d][i].frame} else w.pool
  {
    DirFacts(w, d);
    TableFacts(w, d, i);
    var t := w.m[d][i].frame;
    var s := w.m[t][j := EMPTY];
    assert forall k: nat | k < SLOTS && k != j :: w.Look(d, i, k) == None <==> !s[k].present;
    if IsBlank(s) {
      DropValid(w, d, i, j, t);
      DropLook(w, d, i, j, t);
    } else {
      PutValid(w, d, i, j, EMPTY);
      PutLook(w, d, i, j, EMPTY);
    }
  }

  /** Page (i, j) of d can go: no other directory has its table, or the table has another page. */
  ghost predicate MayGo(w: World, d: Frame, i: nat, j: nat)
    requires w.HasFrame(d) && i < TEMP
  {
    !Shared(w, d, i) || exists k :: 0 <= k < SLOTS && k != j && w.Look(d, i, k).Some?
  }

  lemma UserMayGo(w: World, d: Frame, i: nat, j: nat)
    requires w.Valid() && w.IsDir(d) && w.HasFrame(d) && i < KERNEL && w.m[d][i].present
    ensures MayGo(w, d, i, j)
  {
    if Shared(w, d, i) {
      var d': Frame :|
        w.IsDir(d') && d' != d && w.HasFrame(d') && w.m[d'][i].present && w.m[d'][i].frame == w.m[d][i].frame;
      TablesDistinct(w, d, i, d', i);
      assert false;
    }
  }

  /** Unmapping the last page of a kernel table frees the table: the paging structures stay sound exactly when no other
      directory has that table, or the table has another page. */
  lemma UnmapValidIff(w: World, d: Frame, i: nat, j: nat)
    requires w.Valid() && w.IsDir(d) && i < TEMP && j < SLOTS && w.Look(d, i, j).Some?
    ensures w.HasFrame(d) && w.HasFrame(w.m[d][i].frame)
    ensures Unmap(w, d, i, j).Valid() <==> MayGo(w, d, i, j)
  {
    DirFacts(w, d);
    TableFacts(w, d, i);
    var t := w.m[d][i].frame;
    var s := w.m[t][j := EMPTY];
    assert forall k: nat | k < SLOTS && k != j :: w.Look(d, i, k) == None <==> !s[k].present;
    if !Shared(w, d, i) || !IsBlank(s) {
      UnmapRefines(w, d, i, j);
    } else {
      SharedTable(w, d, i, j);
    }
  }

  lemma SharedTable(w: World, d: Frame, i: nat, j: nat)
    requires w.Valid() && w.IsDir(d) && w.HasFrame(d) && i < TEMP && j < SLOTS && w.m[d][i].present
    requires w.HasFrame(w.m[d][i].frame)
    requires Shared(w, d, i) && IsBlank(w.m[w.m[d][i].frame][j := EMPTY])
    ensures !Unmap(w, d, i, j).Valid()
  {
    var w' := Unmap(w, d, i, j);
    var d': Frame :| w.IsDir(d') && d' != d && w.HasFrame(d') && w.m[d'][i].present
      && w.m[d'][i].frame == w.m[d][i].frame;
    TableFacts(w, d, i);
    assert w'.m[d'] == w.m[d'] && w'.IsDir(d') && w'.HasFrame(d') && !w'.DirOk(d');
  }

  /** A data frame given back. */
  function Freed(w: World, f: Frame): World { w.(pool := w.pool + {f}) }

  lemma FreedValid(w: World, f: Frame)
    requires w.Valid() && f !in w.owner
    ensures Freed(w, f).Valid() && forall d: Frame, i: nat, j: nat :: Freed(w, f).Look(d, i, j) == w.Look(d, i, j)
  {
    var w' := Freed(w, f);
    forall x ensures w'.FrameOk(x) { assert w.FrameOk(x); }
    forall d | w'.IsDir(d) && w'.HasFrame(d) ensures w'.DirOk(d) { assert w.IsDir(d) && w.DirOk(d); }
    forall x ensures w'.TableOk(x) { assert w.TableOk(x); }
  }

  /** Unmapping what was mapped where nothing was gives the same mappings and the same free frames. */
  lemma UnmapUndoesMap(w: World, d: Frame, i: nat, j: nat, e: Entry, t: Frame)
    requires w.Valid() && CanMap(w, d, i, t) && i < KERNEL && j < SLOTS && e.present && w.Look(d, i, j) == None
    ensures w.m[d][i].present ==> w.HasFrame(w.m[d][i].frame)
    ensures var w1 := Map(w, d, i, j, e, t);
      && w1.HasFrame(d) && w1.HasFrame(w1.m[d][i].frame)
      && var w2 := Unmap(w1, d, i, j);
         w2.pool == w.pool && forall d': Frame, i': nat, j': nat | w.IsDir(d') && i' < TEMP ::
           w2.Look(d', i', j') == w.Look(d', i', j')
  {
    MapRefines(w, d, i, j, e, t);
    var w1 := Map(w, d, i, j, e, t);
    UnmapRefines(w1, d, i, j);
    if w.m[d][i].present {
      TableFacts(w, d, i);
      var u := w.m[d][i].frame;
      var k :| 0 <= k < SLOTS && w.m[u][k].present;
      assert w1.Look(d, i, k).Some? && k != j;
    } else {
      forall k: nat | k < SLOTS && k != j
        ensures w1.Look(d, i, k) == None { assert w1.Look(d, i, k) == w.Look(d, i, k); }
    }
    forall d': Frame, i': nat, j': nat | w.IsDir(d') && i' < TEMP
      ensures Unmap(w1, d, i, j).Look(d', i', j') == w.Look(d', i', j') {
      assert w1.IsDir(d');
      assert i' != i || j' != j || d' != d ==> w1.Look(d', i', j') == w.Look(d', i', j');
    }
  }
}
