/** Ranges of pages being mapped and rolled back (do_paging_map_in, src/paging.c). */
module PageRanges {
  import opened PageTables

  /** What page p, counted from address 0, is mapped to. */
  function At(w: World, d: Frame, p: nat): Option<Mapping> { w.Look(d, p / SLOTS, p % SLOTS) }

  /** Pages s + lo to s + hi are mapped to consecutive frames, the ones before are unmapped, all others are as in w0. */
  function Expected(w0: World, d: Frame, s: nat, lo: nat, hi: nat, f0: Frame, bits: Bits, p: nat): Option<Mapping> {
    if s + lo <= p < s + hi then Some(Mapping(f0 + (p - s), bits)) else if s <= p < s + lo then None else At(w0, d, p)
  }

  ghost predicate Stage(w0: World, w: World, d: Frame, s: nat, lo: nat, hi: nat, f0: Frame, bits: Bits) {
    && (forall x: Frame {:trigger w.IsDir(x)} :: w.IsDir(x) <==> w0.IsDir(x))
    && (forall p: nat {:trigger At(w, d, p)} | p < TEMP * SLOTS ::
       At(w, d, p) == Expected(w0, d, s, lo, hi, f0, bits, p))
    && (forall d': Frame, p: nat {:trigger At(w, d', p)} | w0.IsDir(d') && d' != d && p < TEMP * SLOTS ::
       At(w, d', p) == At(w0, d', p))
  }

  lemma TempAt(w: World, w': World, d: Frame, p: nat)
    requires w.Valid() && SameButTemp(w, w') && w'.HasFrame(w.temp) && w.IsDir(d) && p < TEMP * SLOTS
    ensures At(w', d, p) == At(w, d, p)
  {
    TempIrrelevant(w, w');
  }

  /** A change to one user page is a change to one page of the address space. */
  lemma OnePage(w: World, w': World, w1: World, d: Frame, p: nat, d': Frame, q: nat)
    requires w.Valid() && w1.Valid() && Elsewhere(w, w1, d, p / SLOTS, p % SLOTS) && SameButTemp(w1, w')
    requires w'.HasFrame(w1.temp)
    requires w.IsDir(d) && w.IsDir(d') && w1.IsDir(d') && p < KERNEL * SLOTS && q < TEMP * SLOTS && (d' != d || q != p)
    ensures At(w', d', q) == At(w, d', q)
  {
    TempAt(w1, w', d', q);
    assert q / SLOTS == p / SLOTS && q % SLOTS == p % SLOTS ==> q == p;
    assert w1.Look(d', q / SLOTS, q % SLOTS) == w.Look(d', q / SLOTS, q % SLOTS);
  }

  lemma MapDirs(w: World, d: Frame, i: nat, j: nat, e: Entry, t: Frame, x: Frame)
    requires w.Valid() && CanMap(w, d, i, t) && j < SLOTS && (w.m[d][i].present ==> w.HasFrame(w.m[d][i].frame))
    ensures Map(w, d, i, j, e, t).IsDir(x) <==> w.IsDir(x)
  {
    if !w.m[d][i].present && x == t { assert w.FrameOk(t); }
  }

  lemma UnmapDirs(w: World, d: Frame, i: nat, j: nat, x: Frame)
    requires w.Valid() && w.IsDir(d) && w.HasFrame(d) && i < TEMP && w.m[d][i].present && w.HasFrame(w.m[d][i].frame)
    requires j < SLOTS
    ensures Unmap(w, d, i, j).IsDir(x) <==> w.IsDir(x)
  {
    TableFacts(w, d, i);
  }

  /** Mapping the next page. */
  lemma StageMap(w0: World, w: World, w': World, d: Frame, s: nat, k: nat, f0: Frame, bits: Bits, t: Frame)
    requires w.Valid() && Stage(w0, w, d, s, 0, k, f0, bits) && w0.IsDir(d) && s + k < KERNEL * SLOTS
    requires var i, j, e := (s + k) / SLOTS, (s + k) % SLOTS, Entry(true, f0 + k, bits, false);
      && CanMap(w, d, i, t) && (w.m[d][i].present ==> w.HasFrame(w.m[d][i].frame))
      && SameButTemp(Map(w, d, i, j, e, t), w') && w'.HasFrame(w.temp)
    ensures Stage(w0, w', d, s, 0, k + 1, f0, bits)
  {
    var p := s + k;
    var i, j, e := p / SLOTS, p % SLOTS, Entry(true, f0 + k, bits, false);
    var w1 := Map(w, d, i, j, e, t);
    MapRefines(w, d, i, j, e, t);
    forall x: Frame
      ensures w'.IsDir(x) <==> w0.IsDir(x) { MapDirs(w, d, i, j, e, t, x); assert w.IsDir(x) <==> w0.IsDir(x); }
    assert w.IsDir(d) && w1.IsDir(d) by { MapDirs(w, d, i, j, e, t, d); }
    forall q: nat | q < TEMP * SLOTS ensures At(w', d, q) == Expected(w0, d, s, 0, k + 1, f0, bits, q) {
      if q == p { TempAt(w1, w', d, q); }
        else { OnePage(w, w', w1, d, p, d, q); assert At(w, d, q) == Expected(w0, d, s, 0, k, f0, bits, q); }
    }
    forall d': Frame, q: nat | w0.IsDir(d') && d' != d && q < TEMP * SLOTS ensures At(w', d', q) == At(w0, d', q) {
      assert w.IsDir(d') <==> w0.IsDir(d');
      MapDirs(w, d, i, j, e, t, d');
      OnePage(w, w', w1, d, p, d', q);
      assert At(w, d', q) == At(w0, d', q);
    }
  }

  /** Unmapping the next page, mapped by the range or before it. */
  lemma StageUnmap(w0: World, w: World, w': World, d: Frame, s: nat, k: nat, hi: nat, hi': nat, f0: Frame, bits: Bits)
    requires w.Valid() && Stage(w0, w, d, s, k, hi, f0, bits) && w0.IsDir(d) && s + k < KERNEL * SLOTS
    requires At(w, d, s + k).Some?
    requires k <= hi && hi' == if k < hi then hi else k + 1
    requires var i, j := (s + k) / SLOTS, (s + k) % SLOTS;
      && w.HasFrame(d) && w.m[d][i].present && w.HasFrame(w.m[d][i].frame) && SameButTemp(Unmap(w, d, i, j), w')
      && w'.HasFrame(w.temp)
    ensures Stage(w0, w', d, s, k + 1, hi', f0, bits)
  {
    var p := s + k;
    var i, j := p / SLOTS, p % SLOTS;
    var w1 := Unmap(w, d, i, j);
    assert w.IsDir(d);
    UnmapRefines(w, d, i, j);
    forall x: Frame
      ensures w'.IsDir(x) <==> w0.IsDir(x) { UnmapDirs(w, d, i, j, x); assert w.IsDir(x) <==> w0.IsDir(x); }
    forall q: nat | q < TEMP * SLOTS ensures At(w', d, q) == Expected(w0, d, s, k + 1, hi', f0, bits, q) {
      UnmapDirs(w, d, i, j, d);
      if q == p { TempAt(w1, w', d, q); }
        else { OnePage(w, w', w1, d, p, d, q); assert At(w, d, q) == Expected(w0, d, s, k, hi, f0, bits, q); }
    }
    forall d': Frame, q: nat | w0.IsDir(d') && d' != d && q < TEMP * SLOTS ensures At(w', d', q) == At(w0, d', q) {
      assert w.IsDir(d') <==> w0.IsDir(d');
      UnmapDirs(w, d, i, j, d');
      OnePage(w, w', w1, d, p, d', q);
      assert At(w, d', q) == At(w0, d', q);
    }
  }

  // ---------- the free frames ----------

  /** The tables of w0 are where they were; every other frame in use was free in w0 and is a table of d that w0 does
      not have. */
  ghost predicate Grown(w0: World, w: World, d: Frame) {
    && w.IsDir(d) && w0.IsDir(d) && w0.HasFrame(d) && w.HasFrame(d)
    && (forall i: nat | i < TEMP && w0.m[d][i].present :: w.m[d][i] == w0.m[d][i])
    && (forall f {:trigger InUse(w, f)} | InUse(w0, f) :: InUse(w, f) && w.owner[f] == w0.owner[f] && f !in w.pool)
    && (forall f {:trigger InUse(w, f)} | InUse(w, f) && !InUse(w0, f) :: f in w0.pool && NewTable(w0, d, w.owner[f]))
    && (forall f :: f in w.pool <==> f in w0.pool && !InUse(w, f))
  }

  predicate InUse(w: World, f: Frame) { f in w.owner }

  predicate NewTable(w0: World, d: Frame, u: Use) {
    u.UserTable? && u.dir == d && u.index < KERNEL && w0.HasFrame(d) && !w0.m[d][u.index].present
  }

  lemma GrownMap(w0: World, w: World, w': World, d: Frame, i: nat, j: nat, e: Entry, t: Frame)
    requires w0.Valid() && w.Valid() && Grown(w0, w, d) && i < KERNEL && j < SLOTS && CanMap(w, d, i, t)
    requires w.m[d][i].present ==> w.HasFrame(w.m[d][i].frame)
    requires SameButTemp(Map(w, d, i, j, e, t), w')
    ensures Grown(w0, w', d)
  {
    DirFacts(w, d);
    if w.m[d][i].present { TableFacts(w, d, i); } else { assert w.FrameOk(t) && w0.FrameOk(t); }
    forall f ensures InUse(w', f) <==> InUse(w, f) || (!w.m[d][i].present && f == t) { }
    assert forall f | InUse(w0, f) :: InUse(w, f);
  }

  lemma GrownUnmap(w0: World, w: World, w': World, d: Frame, i: nat, j: nat)
    requires w0.Valid() && w.Valid() && Grown(w0, w, d) && i < KERNEL && j < SLOTS && w.m[d][i].present
    requires w.HasFrame(w.m[d][i].frame)
    requires w0.m[d][i].present ==> !IsBlank(w.m[w.m[d][i].frame][j := EMPTY])
    requires SameButTemp(Unmap(w, d, i, j), w')
    ensures Grown(w0, w', d)
  {
    DirFacts(w, d);
    TableFacts(w, d, i);
    var t := w.m[d][i].frame;
    assert InUse(w, t);
    forall f ensures InUse(w', f) <==> InUse(w, f) && !(IsBlank(w.m[t][j := EMPTY]) && f == t) { }
    assert forall f | InUse(w0, f) :: InUse(w, f);
    if IsBlank(w.m[t][j := EMPTY]) { assert InUse(w0, t) ==> w0.FrameOk(t) && w0.TableOk(t); }
  }

  /** A table that w0 does not have holds a page that w0 does not map. */
  lemma NewTablePage(w0: World, w: World, d: Frame, f: Frame) returns (p: nat)
    requires w0.Valid() && w.Valid() && Grown(w0, w, d) && InUse(w, f) && !InUse(w0, f)
    ensures p < KERNEL * SLOTS && At(w, d, p).Some? && At(w0, d, p) == None
  {
    assert w.TableOk(f) && w.FrameOk(f);
    var i := w.owner[f].index;
    var j :| 0 <= j < SLOTS && w.m[f][j].present;
    p := i * SLOTS + j;
    assert p / SLOTS == i && p % SLOTS == j;
  }

  /** Once the mappings are those of w0, so are the free frames. */
  lemma GrownBack(w0: World, w: World, d: Frame)
    requires w0.Valid() && w.Valid() && Grown(w0, w, d)
    requires forall p: nat | p < KERNEL * SLOTS :: At(w, d, p) == At(w0, d, p)
    ensures w.pool == w0.pool && w.owner == w0.owner
  {
    forall f | InUse(w, f) ensures InUse(w0, f) {
      if !InUse(w0, f) {
        var p := NewTablePage(w0, w, d, f);
        assert false;
      }
    }
    forall f ensures f in w.owner <==> f in w0.owner { assert InUse(w0, f) ==> InUse(w, f); }
    forall f | f in w0.owner ensures w.owner[f] == w0.owner[f] { assert InUse(w0, f) && InUse(w, f); }
    assert w.owner == w0.owner;
    forall f ensures f in w.pool <==> f in w0.pool { assert w0.FrameOk(f); }
  }

  // ---------- where mapping a range ends ----------

  /** Page s + k is the first of the range in a table that w0 does not have. */
  predicate NeedsTable(w0: World, d: Frame, s: nat, k: nat)
    requires w0.HasFrame(d) && s + k < KERNEL * SLOTS
  {
    !w0.m[d][(s + k) / SLOTS].present && (k == 0 || (s + k - 1) / SLOTS != (s + k) / SLOTS)
  }

  /** How many tables the first k pages need. */
  function NewTables(w0: World, d: Frame, s: nat, k: nat): nat
    requires w0.HasFrame(d) && s + k <= KERNEL * SLOTS
  {
    if k == 0 then 0 else NewTables(w0, d, s, k - 1) + if NeedsTable(w0, d, s, k - 1) then 1 else 0
  }

  /** Pages s to s + k need more tables than there are free frames. */
  predicate Starves(w0: World, d: Frame, s: nat, k: nat)
    requires w0.HasFrame(d) && s + k < KERNEL * SLOTS
  {
    NewTables(w0, d, s, k + 1) > |w0.pool|
  }

  /** Page s + k is mapped, and not as asked. */
  predicate Conflicts(w0: World, d: Frame, s: nat, k: nat, f0: Frame, bits: Bits) {
    At(w0, d, s + k).Some? && At(w0, d, s + k) != Some(Mapping(f0 + k, bits))
  }

  /** The first page of the range from k on that cannot be mapped, or n. */
  function FirstFailure(w0: World, d: Frame, s: nat, n: nat, f0: Frame, bits: Bits, k: nat): (r: nat)
    requires w0.HasFrame(d) && s + n <= KERNEL * SLOTS && k <= n
    ensures k <= r <= n && (r < n ==> Starves(w0, d, s, r) || Conflicts(w0, d, s, r, f0, bits))
    ensures forall j | k <= j < r :: !Starves(w0, d, s, j) && !Conflicts(w0, d, s, j, f0, bits)
    decreases n - k
  {
    if k == n || Starves(w0, d, s, k) || Conflicts(w0, d, s, k, f0, bits) then k
      else FirstFailure(w0, d, s, n, f0, bits, k + 1)
  }

  lemma {:induction false} FirstFailureIs(w0: World, d: Frame, s: nat, n: nat, f0: Frame, bits: Bits, k: nat, r: nat)
    requires w0.HasFrame(d) && s + n <= KERNEL * SLOTS && k <= r <= n
    requires forall j | k <= j < r :: !Starves(w0, d, s, j) && !Conflicts(w0, d, s, j, f0, bits)
    requires r < n ==> Starves(w0, d, s, r) || Conflicts(w0, d, s, r, f0, bits)
    ensures FirstFailure(w0, d, s, n, f0, bits, k) == r
    decreases n - k
  {
    if k < r { FirstFailureIs(w0, d, s, n, f0, bits, k + 1, r); }
  }

  /** After k pages: which tables are there, and how many free frames are left. */
  ghost predicate Supplied(w0: World, w: World, d: Frame, s: nat, k: nat)
    requires s + k <= KERNEL * SLOTS
  {
    && w0.HasFrame(d) && w.HasFrame(d) && |w.pool| + NewTables(w0, d, s, k) == |w0.pool|
    && forall x: nat | x < KERNEL ::
         w.m[d][x].present <==> w0.m[d][x].present || (k > 0 && s / SLOTS <= x <= (s + k - 1) / SLOTS)
  }

  /** The first k pages can be mapped. */
  ghost predicate NoFailure(w0: World, d: Frame, s: nat, k: nat, f0: Frame, bits: Bits)
    requires w0.HasFrame(d) && s + k <= KERNEL * SLOTS
  {
    forall j | 0 <= j < k :: !Starves(w0, d, s, j) && !Conflicts(w0, d, s, j, f0, bits)
  }

  lemma FailsAt(w0: World, d: Frame, s: nat, n: nat, f0: Frame, bits: Bits, r: nat)
    requires w0.HasFrame(d) && s + n <= KERNEL * SLOTS && r <= n && NoFailure(w0, d, s, r, f0, bits)
    requires r < n ==> Starves(w0, d, s, r) || Conflicts(w0, d, s, r, f0, bits)
    ensures FirstFailure(w0, d, s, n, f0, bits, 0) == r
  {
    FirstFailureIs(w0, d, s, n, f0, bits, 0, r);
  }

  /** w is w0 with the first k pages of the range mapped. */
  ghost predicate MappedUpTo(w0: World, w: World, d: Frame, s: nat, k: nat, f0: Frame, bits: Bits)
    requires s + k <= KERNEL * SLOTS
  {
    Stage(w0, w, d, s, 0, k, f0, bits) && Grown(w0, w, d) && Supplied(w0, w, d, s, k)
      && NoFailure(w0, d, s, k, f0, bits)
  }

  lemma RangeStart(w0: World, d: Frame, s: nat, f0: Frame, bits: Bits)
    requires w0.Valid() && w0.IsDir(d) && s <= KERNEL * SLOTS
    ensures MappedUpTo(w0, w0, d, s, 0, f0, bits)
  {
    DirFacts(w0, d);
    assert forall f :: InUse(w0, f) ==> w0.FrameOk(f);
  }

  lemma SuppliedStep(w0: World, w: World, w': World, d: Frame, s: nat, k: nat, e: Entry, t: Frame)
    requires s + k < KERNEL * SLOTS && Supplied(w0, w, d, s, k) && w.Valid()
    requires var i, j := (s + k) / SLOTS, (s + k) % SLOTS;
      && CanMap(w, d, i, t) && (w.m[d][i].present ==> w.HasFrame(w.m[d][i].frame))
      && SameButTemp(Map(w, d, i, j, e, t), w')
    ensures Supplied(w0, w', d, s, k + 1)
  {
    var i := (s + k) / SLOTS;
    DirFacts(w, d);
    if w.m[d][i].present { TableFacts(w, d, i); } else { assert w.FrameOk(t); }
    assert !w.m[d][i].present <==> NeedsTable(w0, d, s, k);
  }

  /** Whether the next page can be mapped shows in w0. */
  lemma NextFails(w0: World, w: World, d: Frame, s: nat, k: nat, f0: Frame, bits: Bits)
    requires s + k < KERNEL * SLOTS && Supplied(w0, w, d, s, k) && Stage(w0, w, d, s, 0, k, f0, bits)
    ensures Starves(w0, d, s, k) <==> !w.m[d][(s + k) / SLOTS].present && w.pool == {}
    ensures At(w, d, s + k) == At(w0, d, s + k)
  {
    assert !w.m[d][(s + k) / SLOTS].present <==> NeedsTable(w0, d, s, k);
    assert At(w, d, s + k) == Expected(w0, d, s, 0, k, f0, bits, s + k);
  }

  // ---------- what the rollback restores ----------

  ghost predicate SameMap(w0: World, w: World, d: Frame) { forall p: nat | p < TEMP * SLOTS ::
    At(w, d, p) == At(w0, d, p) }

  /** After the rollback of k pages the mappings are restored exactly when none of these pages was mapped before. */
  lemma RestoredIff(w0: World, w: World, d: Frame, s: nat, k: nat, f0: Frame, bits: Bits)
    requires Stage(w0, w, d, s, k, k, f0, bits) && s + k <= KERNEL * SLOTS
    ensures SameMap(w0, w, d) <==> (forall p: nat | s <= p < s + k :: At(w0, d, p) == None)
  {
    assert forall p: nat | p < TEMP * SLOTS :: At(w, d, p) == Expected(w0, d, s, k, k, f0, bits, p);
    if SameMap(w0, w, d) {
      forall p: nat | s <= p < s + k ensures At(w0, d, p) == None { assert At(w, d, p) == At(w0, d, p); }
    }
  }

  // ---------- where unmapping a range ends ----------

  /** The frames behind the range are memory that paging does not use itself. */
  ghost predicate DataPages(w: World, d: Frame, s: nat, n: nat) {
    forall p: nat {:trigger At(w, d, p)} | s <= p < s + n && At(w, d, p).Some? ::
      w.HasFrame(At(w, d, p).v.frame) && At(w, d, p).v.frame !in w.owner
  }

  /** Frame f is behind one of the first k pages. */
  predicate Behind(w0: World, d: Frame, s: nat, k: nat, f: Frame) {
    exists q :: s <= q < s + k && At(w0, d, q).Some? && At(w0, d, q).v.frame == f
  }

  /** Page s + k is not mapped, or its frame cannot be freed any more. */
  predicate Stuck(w0: World, d: Frame, s: nat, k: nat, free: bool) {
    At(w0, d, s + k) == None ||
    (free && (At(w0, d, s + k).v.frame in w0.pool || Behind(w0, d, s, k, At(w0, d, s + k).v.frame)))
  }

  function FirstStuck(w0: World, d: Frame, s: nat, n: nat, free: bool, k: nat): (r: nat)
    requires k <= n
    ensures k <= r <= n && (r < n ==> Stuck(w0, d, s, r, free)) && forall j | k <= j < r :: !Stuck(w0, d, s, j, free)
    decreases n - k
  {
    if k == n || Stuck(w0, d, s, k, free) then k else FirstStuck(w0, d, s, n, free, k + 1)
  }

  lemma {:induction false} FirstStuckIs(w0: World, d: Frame, s: nat, n: nat, free: bool, k: nat, r: nat)
    requires k <= r <= n && (forall j | k <= j < r :: !Stuck(w0, d, s, j, free)) && (r < n ==> Stuck(w0, d, s, r, free))
    ensures FirstStuck(w0, d, s, n, free, k) == r
    decreases n - k
  {
    if k < r { FirstStuckIs(w0, d, s, n, free, k + 1, r); }
  }

  /** After k pages: no frame is used that was not, and of the others the free ones are those behind the pages and
      those before. */
  ghost predicate FreedPages(w0: World, w: World, d: Frame, s: nat, k: nat, free: bool) {
    && (forall f {:trigger InUse(w, f)} | InUse(w, f) :: InUse(w0, f))
    && (forall f | w0.HasFrame(f) :: w.HasFrame(f))
    && (forall f {:trigger Free(w, f)} | !InUse(w0, f) :: Free(w, f) <==>
       Free(w0, f) || (free && Behind(w0, d, s, k, f)))
  }

  predicate Free(w: World, f: Frame) { f in w.pool }

  lemma NextStuck(w0: World, w: World, d: Frame, s: nat, k: nat, n: nat, free: bool, f0: Frame, bits: Bits)
    requires Stage(w0, w, d, s, k, k, f0, bits) && FreedPages(w0, w, d, s, k, free) && k < n && s + n <= KERNEL * SLOTS
    requires free ==> DataPages(w0, d, s, n)
    ensures At(w, d, s + k) == At(w0, d, s + k)
    ensures free && At(w0, d, s + k).Some? ==>
      var f := At(w0, d, s + k).v.frame;
      w.HasFrame(f) && f !in w.owner && f !in w0.owner && (f in w.pool <==> f in w0.pool || Behind(w0, d, s, k, f))
  {
    assert At(w, d, s + k) == Expected(w0, d, s, k, k, f0, bits, s + k);
    if free && At(w0, d, s + k).Some? {
      var f := At(w0, d, s + k).v.frame;
      assert !InUse(w0, f) && !InUse(w, f) && (Free(w, f) <==> Free(w0, f) || Behind(w0, d, s, k, f));
    }
  }

  lemma FreedTemp(w0: World, w: World, w': World, d: Frame, s: nat, k: nat, free: bool)
    requires FreedPages(w0, w, d, s, k, free) && SameButTemp(w, w') && w'.HasFrame(w.temp)
    ensures FreedPages(w0, w', d, s, k, free)
  {
    forall x ensures (InUse(w', x) <==> InUse(w, x)) && (Free(w', x) <==> Free(w, x)) { }
  }

  /** Freeing a frame maps and unmaps nothing. */
  lemma StageFreed(w0: World, w: World, y: World, d: Frame, s: nat, k: nat, f0: Frame, bits: Bits)
    requires Stage(w0, w, d, s, k, k, f0, bits) && y == w.(pool := y.pool)
    ensures Stage(w0, y, d, s, k, k, f0, bits)
  {
    forall x: Frame ensures y.IsDir(x) <==> w0.IsDir(x) { assert w.IsDir(x) <==> w0.IsDir(x); }
    forall p: nat | p < TEMP * SLOTS ensures At(y, d, p) == Expected(w0, d, s, k, k, f0, bits, p) {
      assert At(w, d, p) == Expected(w0, d, s, k, k, f0, bits, p);
    }
    forall d': Frame, p: nat | w0.IsDir(d') && d' != d && p < TEMP * SLOTS ensures At(y, d', p) == At(w0, d', p) {
      assert At(w, d', p) == At(w0, d', p);
    }
  }

  lemma FreedStep(w0: World, w: World, w': World, d: Frame, s: nat, k: nat, free: bool)
    requires w0.Valid() && w.Valid() && w.IsDir(d) && FreedPages(w0, w, d, s, k, free) && s + k < KERNEL * SLOTS
    requires At(w, d, s + k).Some? && At(w0, d, s + k) == At(w, d, s + k)
    requires var i, j, f := (s + k) / SLOTS, (s + k) % SLOTS, At(w, d, s + k).v.frame;
      && w.HasFrame(d) && w.m[d][i].present && w.HasFrame(w.m[d][i].frame)
      && SameButTemp(Unmap(if free then Freed(w, f) else w, d, i, j), w') && w'.HasFrame(w.temp)
    ensures FreedPages(w0, w', d, s, k + 1, free)
  {
    var i, j, f := (s + k) / SLOTS, (s + k) % SLOTS, At(w, d, s + k).v.frame;
    var t := w.m[d][i].frame;
    TableFacts(w, d, i);
    assert InUse(w, t) && InUse(w0, t);
    forall x ensures Behind(w0, d, s, k + 1, x) <==> Behind(w0, d, s, k, x) || x == f { BehindStep(w0, d, s, k, x); }
    forall x | InUse(w', x) ensures InUse(w0, x) { assert InUse(w, x); }
    forall x | !InUse(w0, x) ensures Free(w', x) <==> Free(w0, x) || (free && Behind(w0, d, s, k + 1, x)) {
      assert x != t && (Free(w, x) <==> Free(w0, x) || (free && Behind(w0, d, s, k, x)));
    }
  }

  lemma BehindStep(w0: World, d: Frame, s: nat, k: nat, x: Frame)
    requires At(w0, d, s + k).Some?
    ensures Behind(w0, d, s, k + 1, x) <==> Behind(w0, d, s, k, x) || x == At(w0, d, s + k).v.frame
  {
    if x == At(w0, d, s + k).v.frame { assert s <= s + k < s + k + 1; }
  }

  /** A range just mapped can be unmapped to its end. */
  lemma AllMapped(w0: World, w: World, d: Frame, s: nat, n: nat, f0: Frame, bits: Bits)
    requires Stage(w0, w, d, s, 0, n, f0, bits) && w0.IsDir(d) && s + n <= KERNEL * SLOTS
    ensures w.IsDir(d) && FirstStuck(w, d, s, n, false, 0) == n
  {
    assert w.IsDir(d) <==> w0.IsDir(d);
    forall j | 0 <= j < n ensures !Stuck(w, d, s, j, false) {
      assert At(w, d, s + j) == Expected(w0, d, s, 0, n, f0, bits, s + j);
    }
    FirstStuckIs(w, d, s, n, false, 0, n);
  }

  /** Mapping a range and unmapping it leaves what the rollback of the whole range leaves. */
  lemma StageUndone(w0: World, w1: World, w2: World, d: Frame, s: nat, n: nat, f0: Frame, bits: Bits)
    requires w0.IsDir(d) && Stage(w0, w1, d, s, 0, n, f0, bits) && Stage(w1, w2, d, s, n, n, f0, bits)
    ensures Stage(w0, w2, d, s, n, n, f0, bits)
  {
    forall x: Frame ensures w2.IsDir(x) <==> w0.IsDir(x) { assert w2.IsDir(x) <==> w1.IsDir(x); }
    forall p: nat | p < TEMP * SLOTS ensures At(w2, d, p) == Expected(w0, d, s, n, n, f0, bits, p) {
      assert At(w2, d, p) == Expected(w1, d, s, n, n, f0, bits, p)
        && At(w1, d, p) == Expected(w0, d, s, 0, n, f0, bits, p);
    }
    forall d': Frame, p: nat | w0.IsDir(d') && d' != d && p < TEMP * SLOTS ensures At(w2, d', p) == At(w0, d', p) {
      assert w1.IsDir(d') <==> w0.IsDir(d');
      assert At(w2, d', p) == At(w1, d', p) && At(w1, d', p) == At(w0, d', p);
    }
  }
}
