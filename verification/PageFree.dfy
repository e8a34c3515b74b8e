/** Setting up and tearing down an address space (paging_setup_new_page_dir and paging_free_addr_space,
    src/paging.c). */
module PageFree {
  import opened PageTables

  // ---------- a new directory ----------

  /** No user entries, the kernel entries of directory c, its table of windows, and an entry for the directory
      itself. */
  function NewDir(m: Memory, c: Frame, f: Frame): (r: seq<Entry>)
    requires c in m && |m[c]| == SLOTS
    ensures |r| == SLOTS
    ensures forall i | 0 <= i < SLOTS ::
      r[i] == if i < KERNEL then EMPTY else if i < REC then m[c][i] else m[c][REC].(frame := f)
  {
    seq(SLOTS, i requires 0 <= i < SLOTS => if i < KERNEL then EMPTY else if i < REC then m[c][i]
      else m[c][REC].(frame := f))
  }

  function AddDir(w: World, c: Frame, f: Frame): World
    requires w.HasFrame(c)
  {
    World(w.m[f := NewDir(w.m, c, f)], w.owner[f := Dir], w.pool, w.temp)
  }

  lemma NewDirIs(m: Memory, c: Frame, f: Frame, s: seq<Entry>)
    requires c in m && |m[c]| == SLOTS == |s|
    requires forall k | 0 <= k < SLOTS :: s[k] == if KERNEL <= k < REC then m[c][k] else EMPTY
    ensures s[REC := m[c][REC].(frame := f)] == NewDir(m, c, f)
  {
  }

  /** A new address space maps no user page and the same kernel pages; the others are as they were. */
  lemma AddDirValid(w: World, c: Frame, f: Frame)
    requires w.Valid() && w.IsDir(c) && w.HasFrame(c) && f !in w.owner && f !in w.pool
    ensures AddDir(w, c, f).Valid() && AddDir(w, c, f).IsDir(f)
    ensures forall i: nat, j: nat | i < TEMP ::
      AddDir(w, c, f).Look(f, i, j) == if i < KERNEL then None else w.Look(c, i, j)
    ensures forall d: Frame, i: nat, j: nat | w.IsDir(d) && i < TEMP :: AddDir(w, c, f).Look(d, i, j) == w.Look(d, i, j)
  {
    var w' := AddDir(w, c, f);
    DirFacts(w, c);
    forall x ensures w'.FrameOk(x) { assert w.FrameOk(x); }
    forall d | w'.IsDir(d) && w'.HasFrame(d) ensures w'.DirOk(d) {
      if d != f { assert w.IsDir(d); DirFacts(w, d); assert w'.m[d] == w.m[d]; }
    }
    forall t ensures w'.TableOk(t) {
      assert w.TableOk(t) && w.FrameOk(t);
      if t in w.owner && w.owner[t].UserTable? { assert w.FrameOk(w.owner[t].dir); assert w'.m[t] == w.m[t]; }
    }
    forall i: nat, j: nat | i < TEMP ensures w'.Look(f, i, j) == if i < KERNEL then None else w.Look(c, i, j) {
      if i >= KERNEL && w.m[c][i].present { TableFacts(w, c, i); }
    }
    forall d: Frame, i: nat, j: nat | w.IsDir(d) && i < TEMP ensures w'.Look(d, i, j) == w.Look(d, i, j) {
      DirFacts(w, d);
      if w.m[d][i].present { TableFacts(w, d, i); }
    }
  }

  // ---------- what tearing down frees ----------

  /** The frames that the present entries of a table point at, from entry j on. */
  function Leaves(s: seq<Entry>, j: nat): seq<Frame>
    requires j <= |s|
    decreases |s| - j
  {
    if j == |s| then [] else (if s[j].present then [s[j].frame] else []) + Leaves(s, j + 1)
  }

  /** For each user table from entry i on, its pages' frames and its own. */
  function Tables(m: Memory, d: Frame, i: nat): seq<Frame>
    requires d in m && |m[d]| == SLOTS
    decreases |m[d]| - i
  {
    if i >= KERNEL then []
    else (if m[d][i].present then (if m[d][i].frame in m then Leaves(m[m[d][i].frame], 0) else []) + [m[d][i].frame]
      else []) + Tables(m, d, i + 1)
  }

  /** Everything the address space owns, in the order it is freed: the directory comes last. */
  function FreeList(m: Memory, d: Frame): seq<Frame>
    requires d in m && |m[d]| == SLOTS
  {
    Tables(m, d, 0) + [d]
  }

  predicate PointsAt(s: seq<Entry>, k: nat, f: Frame) { k < |s| && s[k].present && s[k].frame == f }

  lemma {:induction false} LeafPoints(s: seq<Entry>, j: nat, f: Frame) returns (k: nat)
    requires j <= |s| && f in Leaves(s, j)
    ensures PointsAt(s, k, f)
    decreases |s| - j
  {
    if PointsAt(s, j, f) { k := j; } else { k := LeafPoints(s, j + 1, f); }
  }

  lemma {:induction false} PointedIsLeaf(s: seq<Entry>, j: nat, k: nat, f: Frame)
    requires j <= k && PointsAt(s, k, f)
    ensures f in Leaves(s, j)
    decreases k - j
  {
    if j < k { PointedIsLeaf(s, j + 1, k, f); }
  }

  /** Entry k of directory d leads to f: it is the table, or a page of it. */
  ghost predicate Leads(m: Memory, d: Frame, k: nat, f: Frame)
    requires d in m && |m[d]| == SLOTS && k < SLOTS
  {
    m[d][k].present && (f == m[d][k].frame || (m[d][k].frame in m && f in Leaves(m[m[d][k].frame], 0)))
  }

  lemma {:induction false} TableLeads(m: Memory, d: Frame, i: nat, f: Frame) returns (k: nat)
    requires d in m && |m[d]| == SLOTS && f in Tables(m, d, i)
    ensures k < KERNEL && Leads(m, d, k, f)
    decreases SLOTS - i
  {
    if Leads(m, d, i, f) { k := i; } else { k := TableLeads(m, d, i + 1, f); }
  }

  lemma {:induction false} LeadsListed(m: Memory, d: Frame, i: nat, k: nat, f: Frame)
    requires d in m && |m[d]| == SLOTS && i <= k < KERNEL && Leads(m, d, k, f)
    ensures f in Tables(m, d, i)
    decreases k - i
  {
    if i < k { LeadsListed(m, d, i + 1, k, f); }
  }

  predicate MapsTo(w: World, d: Frame, k: nat, j: nat, f: Frame) {
    w.Look(d, k, j).Some? && w.Look(d, k, j).v.frame == f
  }

  /** A user page of address space d is mapped to frame f. */
  ghost predicate MapsUser(w: World, d: Frame, f: Frame) {
    exists k: nat, j: nat :: k < KERNEL && MapsTo(w, d, k, j, f)
  }

  /** Frame f is a user table of d. */
  predicate TableOf(w: World, d: Frame, f: Frame) { f in w.owner && w.owner[f].UserTable? && w.owner[f].dir == d }

  lemma LeadsIs(w: World, d: Frame, k: nat, f: Frame)
    requires w.Valid() && w.IsDir(d) && w.HasFrame(d) && k < KERNEL && Leads(w.m, d, k, f)
    ensures TableOf(w, d, f) || MapsUser(w, d, f)
  {
    TableFacts(w, d, k);
    var s := w.m[w.m[d][k].frame];
    if f != w.m[d][k].frame {
      var x := LeafPoints(s, 0, f);
      assert MapsTo(w, d, k, x, f);
    }
  }

  lemma LeadsTo(w: World, d: Frame, f: Frame) returns (k: nat)
    requires w.Valid() && w.IsDir(d) && w.HasFrame(d) && (TableOf(w, d, f) || MapsUser(w, d, f))
    ensures k < KERNEL && Leads(w.m, d, k, f)
  {
    if TableOf(w, d, f) {
      assert w.FrameOk(f) && w.TableOk(f);
      k := w.owner[f].index;
    } else {
      var i: nat, j: nat :| i < KERNEL && MapsTo(w, d, i, j, f);
      TableFacts(w, d, i);
      assert PointsAt(w.m[w.m[d][i].frame], j, f);
      PointedIsLeaf(w.m[w.m[d][i].frame], 0, j, f);
      k := i;
    }
  }

  /** Exactly what is freed: the directory, its user tables, and the frames of its user pages. */
  lemma FreedIff(w: World, d: Frame, f: Frame)
    requires w.Valid() && w.IsDir(d) && w.HasFrame(d)
    ensures f in FreeList(w.m, d) <==> f == d || TableOf(w, d, f) || MapsUser(w, d, f)
  {
    if f in Tables(w.m, d, 0) {
      var k := TableLeads(w.m, d, 0, f);
      LeadsIs(w, d, k, f);
    }
    if TableOf(w, d, f) || MapsUser(w, d, f) {
      var k := LeadsTo(w, d, f);
      LeadsListed(w.m, d, 0, k, f);
    }
  }

  lemma LeavesStep(l: seq<Frame>, s: seq<Entry>, j: nat, rest: seq<Frame>)
    requires j < |s| && s[j].present
    ensures l + Leaves(s, j) == l + [s[j].frame] + Leaves(s, j + 1)
    ensures l + [s[j].frame] + (Leaves(s, j + 1) + rest) == l + Leaves(s, j) + rest
  {
    assert Leaves(s, j) == [s[j].frame] + Leaves(s, j + 1);
  }

  lemma LeavesEnd(l: seq<Frame>, s: seq<Entry>)
    ensures l + Leaves(s, |s|) == l
  {
  }

  /** One table more in the list, and how the list goes on after it. */
  lemma TablesStep(m: Memory, d: Frame, i: nat, t: Frame, done: seq<Frame>, leaves: seq<Frame>, next: seq<Frame>)
    requires d in m && |m[d]| == SLOTS && i < KERNEL && m[d][i].present && m[d][i].frame == t && t in m
    requires leaves == Leaves(m[t], 0) && next == Tables(m, d, i + 1)
    ensures done + leaves + [t] + next == done + Tables(m, d, i)
    ensures done + leaves + ([t] + next + [d]) == done + Tables(m, d, i) + [d]
    ensures done + leaves + [t] + (next + [d]) == done + Tables(m, d, i) + [d]
  {
    assert Tables(m, d, i) == leaves + [t] + next;
  }

  /** The empty list at the start, and the directory at the end. */
  lemma ListEnds(m: Memory, d: Frame, done: seq<Frame>)
    requires d in m && |m[d]| == SLOTS
    ensures Elements([]) == {} && [] + Tables(m, d, 0) == Tables(m, d, 0) && done + Tables(m, d, KERNEL) == done
    ensures done + [d] + [] == done + [d]
  {
  }

  ghost predicate Distinct(l: seq<Frame>) { forall a, b | 0 <= a < b < |l| :: l[a] != l[b] }

  /** No frame is freed twice, and none is free already. */
  ghost predicate Clean(l: seq<Frame>, pool: set<Frame>) { Distinct(l) && forall f | f in l :: f !in pool }

  function Elements(l: seq<Frame>): set<Frame> { set f | f in l }

  lemma {:induction false} DistinctCount(l: seq<Frame>)
    requires Distinct(l)
    ensures |Elements(l)| == |l|
  {
    if l != [] {
      var n := |l| - 1;
      DistinctCount(l[..n]);
      assert Elements(l) == Elements(l[..n]) + {l[n]} && l[n] !in Elements(l[..n]);
    } else {
      assert Elements(l) == {};
    }
  }

  /** Freeing one frame more. */
  lemma CleanStep(done: seq<Frame>, f: Frame, rest: seq<Frame>, pool: set<Frame>)
    requires Clean(done, pool)
    ensures f in pool + Elements(done) ==> !Clean(done + [f] + rest, pool)
    ensures f !in pool + Elements(done) ==>
      Clean(done + [f], pool) && pool + Elements(done + [f]) == pool + Elements(done) + {f}
  {
    var l := done + [f] + rest;
    assert l[|done|] == f && f in l;
    if f in done {
      var a :| 0 <= a < |done| && done[a] == f;
      assert l[a] == l[|done|];
    }
  }

  /** What an address space frees is its own: data frames, its user tables and its directory; no kernel table is among
      them. */
  lemma {:induction false} TablesOwn(w: World, d: Frame, i: nat, f: Frame)
    requires w.Valid() && w.IsDir(d) && w.HasFrame(d) && f in Tables(w.m, d, i) && f in w.owner
    requires forall k: nat, j: nat | k < KERNEL && w.Look(d, k, j).Some? :: w.Look(d, k, j).v.frame !in w.owner
    ensures w.owner[f].UserTable? && w.owner[f].dir == d
    decreases KERNEL - i
  {
    if w.m[d][i].present {
      TableFacts(w, d, i);
      var t := w.m[d][i].frame;
      if f in Leaves(w.m[t], 0) {
        LeafNotOwned(w, d, i, f);
        assert false;
      }
      if f != t { TablesOwn(w, d, i + 1, f); }
    } else {
      TablesOwn(w, d, i + 1, f);
    }
  }

  lemma LeafNotOwned(w: World, d: Frame, i: nat, f: Frame)
    requires w.HasFrame(d) && i < KERNEL && w.m[d][i].present && w.HasFrame(w.m[d][i].frame)
    requires f in Leaves(w.m[w.m[d][i].frame], 0)
    requires forall k: nat, j: nat | k < KERNEL && w.Look(d, k, j).Some? :: w.Look(d, k, j).v.frame !in w.owner
    ensures f !in w.owner
  {
    var j := LeafAt(w.m[w.m[d][i].frame], 0, f);
    assert w.Look(d, i, j).Some? && w.Look(d, i, j).v.frame == f;
  }

  lemma {:induction false} LeafAt(s: seq<Entry>, j: nat, f: Frame) returns (k: nat)
    requires j <= |s| && f in Leaves(s, j)
    ensures j <= k < |s| && s[k].present && s[k].frame == f
    decreases |s| - j
  {
    if s[j].present && s[j].frame == f { k := j; } else { k := LeafAt(s, j + 1, f); }
  }

  /** The address space gone: its directory and user tables have no use any more, and all it freed is in the pool. */
  function DropDir(w: World, d: Frame): World
    requires w.HasFrame(d)
  {
    World(w.m, w.owner - Elements(FreeList(w.m, d)), w.pool + Elements(FreeList(w.m, d)), w.temp)
  }

  /** Every user table of d is in the list. */
  lemma {:induction false} TablesAll(w: World, d: Frame, i: nat, k: nat)
    requires w.HasFrame(d) && i <= k < KERNEL && w.m[d][k].present
    ensures w.m[d][k].frame in Tables(w.m, d, i)
    decreases k - i
  {
    if i < k { TablesAll(w, d, i + 1, k); }
  }

  /** What it frees of the frames in use are its directory and its user tables. */
  lemma DropOwn(w: World, d: Frame)
    requires w.Valid() && w.IsDir(d) && w.HasFrame(d)
    requires forall k: nat, j: nat | k < KERNEL && w.Look(d, k, j).Some? :: w.Look(d, k, j).v.frame !in w.owner
    ensures forall f | f in w.owner && f in FreeList(w.m, d) && f != d :: w.owner[f].UserTable? && w.owner[f].dir == d
  {
    forall f | f in w.owner && f in FreeList(w.m, d) && f != d
      ensures w.owner[f].UserTable? && w.owner[f].dir == d { TablesOwn(w, d, 0, f); }
  }

  /** Tearing down an address space keeps the others: their pages are mapped as before, and no kernel table is
      touched. */
  lemma DropDirValid(w: World, d: Frame)
    requires w.Valid() && w.IsDir(d) && w.HasFrame(d)
    requires forall k: nat, j: nat | k < KERNEL && w.Look(d, k, j).Some? :: w.Look(d, k, j).v.frame !in w.owner
    ensures DropDir(w, d).Valid()
    ensures forall x: Frame, i: nat, j: nat | w.IsDir(x) && x != d && i < TEMP ::
      DropDir(w, d).IsDir(x) && DropDir(w, d).Look(x, i, j) == w.Look(x, i, j)
    ensures forall f | f in w.owner && !w.owner[f].UserTable? && f != d :: f !in FreeList(w.m, d)
  {
    DirFacts(w, d);
    DropOwn(w, d);
    DropWorld(w, d, DropDir(w, d));
  }

  lemma DropWorld(w: World, d: Frame, w': World)
    requires w.Valid() && w.IsDir(d) && w.HasFrame(d) && w' == DropDir(w, d) && d != w.temp
    requires forall f | f in w.owner && f in FreeList(w.m, d) && f != d :: w.owner[f].UserTable? && w.owner[f].dir == d
    ensures w'.Valid()
  {
    forall f ensures w'.FrameOk(f) { assert w.FrameOk(f); }
    forall x | w'.IsDir(x) && w'.HasFrame(x) ensures w'.DirOk(x) {
      assert w.IsDir(x) && x != d;
      DirFacts(w, x);
    }
    forall t ensures w'.TableOk(t) {
      assert w.TableOk(t) && w.FrameOk(t);
      if t in w'.owner && w.owner[t].UserTable? && w.owner[t].dir == d { TablesAll(w, d, 0, w.owner[t].index); }
    }
  }

  lemma {:induction false} TableHasFrame(w: World, d: Frame, i: nat, f: Frame)
    requires w.Valid() && w.IsDir(d) && w.HasFrame(d) && f in Tables(w.m, d, i)
    requires forall k: nat, j: nat | k < KERNEL && w.Look(d, k, j).Some? :: w.HasFrame(w.Look(d, k, j).v.frame)
    ensures w.HasFrame(f)
    decreases KERNEL - i
  {
    if w.m[d][i].present {
      TableFacts(w, d, i);
      var t := w.m[d][i].frame;
      if f in Leaves(w.m[t], 0) {
        var j := LeafAt(w.m[t], 0, f);
        assert w.Look(d, i, j).Some? && w.Look(d, i, j).v.frame == f;
      } else if f != t {
        TableHasFrame(w, d, i + 1, f);
      }
    } else {
      TableHasFrame(w, d, i + 1, f);
    }
  }

  lemma ListedHasFrame(w: World, d: Frame, f: Frame)
    requires w.Valid() && w.IsDir(d) && w.HasFrame(d) && f in FreeList(w.m, d)
    requires forall k: nat, j: nat | k < KERNEL && w.Look(d, k, j).Some? :: w.HasFrame(w.Look(d, k, j).v.frame)
    ensures w.HasFrame(f)
  {
    if f != d { TableHasFrame(w, d, 0, f); }
  }

  /** What comes free are frames of memory, and another directory c stays one. */
  lemma DropDirFrames(w: World, d: Frame, c: Frame)
    requires w.Valid() && w.IsDir(d) && w.HasFrame(d) && w.IsDir(c) && c != d && forall f | f in w.pool :: w.HasFrame(f)
    requires forall k: nat, j: nat | k < KERNEL && w.Look(d, k, j).Some? ::
      w.Look(d, k, j).v.frame !in w.owner && w.HasFrame(w.Look(d, k, j).v.frame)
    ensures DropDir(w, d).Valid() && DropDir(w, d).IsDir(c)
    ensures forall f | f in DropDir(w, d).pool :: DropDir(w, d).HasFrame(f)
  {
    DropDirValid(w, d);
    forall f | f in FreeList(w.m, d) ensures w.HasFrame(f) { ListedHasFrame(w, d, f); }
  }
}
