/** Holes in an address space (compute_hole_size and the search over it, src/paging.c). */
module PageSearch {
  import opened PageTables
  import opened PageRanges

  /** The first page of the temporary region. */
  const LIMIT: nat := TEMP * SLOTS

  /** The length of the unmapped run from page p up. */
  function HoleSize(w: World, d: Frame, p: nat): nat
    decreases LIMIT - p, w
  {
    if p >= LIMIT || At(w, d, p).Some? then 0 else 1 + HoleSize(w, d, p + 1)
  }

  /** n pages are unmapped, and then the run ends. */
  lemma {:induction false} HoleIs(w: World, d: Frame, p: nat, n: nat)
    requires p + n <= LIMIT && (forall q: nat | p <= q < p + n :: At(w, d, q) == None)
    requires p + n == LIMIT || At(w, d, p + n).Some?
    ensures HoleSize(w, d, p) == n
    decreases n
  {
    if n > 0 { HoleIs(w, d, p + 1, n - 1); }
  }

  /** n unmapped pages before the run. */
  lemma {:induction false} HoleGrows(w: World, d: Frame, p: nat, n: nat)
    requires p + n <= LIMIT && forall q: nat | p <= q < p + n :: At(w, d, q) == None
    ensures HoleSize(w, d, p) == n + HoleSize(w, d, p + n)
    decreases n
  {
    if n > 0 { HoleGrows(w, d, p + 1, n - 1); }
  }

  /** The run is maximal: its pages are unmapped, the next is mapped or at the limit. */
  lemma {:induction false} HoleMaximal(w: World, d: Frame, p: nat)
    requires p <= LIMIT
    ensures var n := HoleSize(w, d, p);
      && p + n <= LIMIT && (p + n < LIMIT ==> At(w, d, p + n).Some?)
      && forall q: nat | p <= q < p + n :: At(w, d, q) == None
    decreases LIMIT - p
  {
    if p < LIMIT && At(w, d, p) == None { HoleMaximal(w, d, p + 1); }
  }

  /** Page p starts a hole of at least n pages. */
  predicate Fits(w: World, d: Frame, p: nat, n: nat) {
    p < LIMIT && At(w, d, p) == None && HoleSize(w, d, p) >= n
  }

  // ---------- what the loop of compute_hole_size adds up ----------

  /** The absent entries of a table from entry j up to the first present one. */
  function Absent(s: seq<Entry>, j: nat): (r: nat)
    requires j <= |s|
    ensures j + r <= |s|
    decreases |s| - j
  {
    if j == |s| || s[j].present then 0 else 1 + Absent(s, j + 1)
  }

  /** The count from entry j of table i, when the pointer to the directory shows frame dir. For another address space,
      looking at a table turns the one temporary window to it, and the pointer shows the table from then on. */
  function Scan(m: Memory, dir: Frame, foreign: bool, i: nat, j: nat): nat
    requires j <= SLOTS
    decreases TEMP - i, m
  {
    if i >= TEMP || dir !in m || |m[dir]| != SLOTS then 0
    else if !m[dir][i].present then SLOTS - j + Scan(m, dir, foreign, i + 1, 0)
    else
      var t := m[dir][i].frame;
      if t !in m || |m[t]| != SLOTS then 0
      else if j + Absent(m[t], j) < SLOTS then Absent(m[t], j)
      else SLOTS - j + Scan(m, if foreign then t else dir, foreign, i + 1, 0)
  }

  lemma {:induction false} AbsentIs(s: seq<Entry>, j: nat)
    requires j <= |s|
    ensures forall k | j <= k < j + Absent(s, j) :: !s[k].present
    ensures j + Absent(s, j) < |s| ==> s[j + Absent(s, j)].present
    decreases |s| - j
  {
    if j < |s| && !s[j].present { AbsentIs(s, j + 1); }
  }

  /** The run inside table i. */
  lemma TableRun(w: World, d: Frame, i: nat, j: nat, n: nat)
    requires w.Valid() && w.IsDir(d) && w.HasFrame(d) && i < TEMP && j < SLOTS
    requires n == if w.m[d][i].present && w.HasFrame(w.m[d][i].frame) then Absent(w.m[w.m[d][i].frame], j)
      else SLOTS - j
    ensures j + n <= SLOTS && (forall q: nat | i * SLOTS + j <= q < i * SLOTS + j + n :: At(w, d, q) == None)
    ensures j + n < SLOTS ==> At(w, d, i * SLOTS + j + n).Some?
  {
    if w.m[d][i].present {
      TableFacts(w, d, i);
      AbsentIs(w.m[w.m[d][i].frame], j);
    }
    forall q: nat | i * SLOTS + j <= q < i * SLOTS + j + n
      ensures At(w, d, q) == None { assert q / SLOTS == i && q % SLOTS == q - i * SLOTS; }
    assert j + n < SLOTS ==> (i * SLOTS + j + n) / SLOTS == i && (i * SLOTS + j + n) % SLOTS == j + n;
  }

  /** In the current address space the count is the length of the hole. */
  lemma {:induction false} ScanIsHole(w: World, d: Frame, i: nat, j: nat)
    requires w.Valid() && w.IsDir(d) && i <= TEMP && j < SLOTS && (i == TEMP ==> j == 0)
    ensures Scan(w.m, d, false, i, j) == HoleSize(w, d, i * SLOTS + j)
    decreases TEMP - i
  {
    if i < TEMP {
      DirFacts(w, d);
      if w.m[d][i].present { TableFacts(w, d, i); }
      var p, n := i * SLOTS + j, if w.m[d][i].present then Absent(w.m[w.m[d][i].frame], j) else SLOTS - j;
      TableRun(w, d, i, j, n);
      if j + n < SLOTS {
        HoleIs(w, d, p, n);
      } else {
        ScanIsHole(w, d, i + 1, 0);
        HoleGrows(w, d, p, n);
      }
    }
  }

  // ---------- the count in another address space ----------

  lemma {:induction false} AllAbsent(m: Memory, dir: Frame, foreign: bool, i: nat)
    requires i <= TEMP && dir in m && |m[dir]| == SLOTS && forall x | i <= x < SLOTS :: !m[dir][x].present
    ensures Scan(m, dir, foreign, i, 0) == (TEMP - i) * SLOTS
    decreases TEMP - i
  {
    if i < TEMP { AllAbsent(m, dir, foreign, i + 1); }
  }

  /** The first present entry of directory d from i on, or TEMP. */
  function FirstTable(m: Memory, d: Frame, i: nat): (k: nat)
    requires i <= TEMP && d in m && |m[d]| == SLOTS
    ensures i <= k <= TEMP && (k < TEMP ==> m[d][k].present) && forall x | i <= x < k :: !m[d][x].present
    decreases TEMP - i
  {
    if i == TEMP || m[d][i].present then i else FirstTable(m, d, i + 1)
  }

  /** Absent entries count in full. */
  lemma {:induction false} SkipAbsent(m: Memory, d: Frame, foreign: bool, i: nat, j: nat, k: nat)
    requires i < k <= TEMP && j <= SLOTS && d in m && |m[d]| == SLOTS && forall x | i <= x < k :: !m[d][x].present
    ensures Scan(m, d, foreign, i, j) == (k - i) * SLOTS - j + Scan(m, d, foreign, k, 0)
    decreases k - i
  {
    if i + 1 < k { SkipAbsent(m, d, foreign, i + 1, 0, k); }
  }

  /** The count from entry k on when the pointer to the directory shows table t: its pages are taken for tables. */
  function Misread(m: Memory, t: Frame, k: nat): nat
    requires k <= TEMP && t in m && |m[t]| == SLOTS
  {
    var q := FirstTable(m, t, k);
    if q == TEMP then (TEMP - k) * SLOTS
    else
      var u := m[t][q].frame;
      if u !in m || |m[u]| != SLOTS then (q - k) * SLOTS
      else if Absent(m[u], 0) < SLOTS then (q - k) * SLOTS + Absent(m[u], 0)
      else (TEMP - k) * SLOTS
  }

  lemma MisreadIs(m: Memory, t: Frame, k: nat)
    requires k <= TEMP && t in m && |m[t]| == SLOTS
    ensures Scan(m, t, true, k, 0) == Misread(m, t, k)
  {
    var q := FirstTable(m, t, k);
    if k < q { SkipAbsent(m, t, true, k, 0, q); }
    if q < TEMP {
      var u := m[t][q].frame;
      if u in m && |m[u]| == SLOTS && Absent(m[u], 0) == SLOTS {
        AbsentIs(m[u], 0);
        AllAbsent(m, u, true, q + 1);
      }
    }
  }

  /** The count from a table of the directory on. */
  lemma FromTable(w: World, d: Frame, k: nat, j: nat, t: Frame)
    requires w.Valid() && w.IsDir(d) && w.HasFrame(d) && k < TEMP && j < SLOTS && w.m[d][k].present
    requires t == w.m[d][k].frame
    ensures w.HasFrame(t)
    ensures Scan(w.m, d, true, k, j) == Scan(w.m, d, false, k, j) <==>
      j + Absent(w.m[t], j) < SLOTS || HoleSize(w, d, (k + 1) * SLOTS) == Misread(w.m, t, k + 1)
  {
    TableFacts(w, d, k);
    ScanIsHole(w, d, k + 1, 0);
    MisreadIs(w.m, t, k + 1);
  }

  /** From entry j of table i on, the count opens no table, or the first one it opens, table k, ends the hole or is the
      last. */
  predicate OpensOne(m: Memory, d: Frame, i: nat, j: nat, k: nat)
    requires i < TEMP && j < SLOTS && d in m && |m[d]| == SLOTS && k == FirstTable(m, d, i)
    requires k < TEMP ==> m[d][k].frame in m && |m[m[d][k].frame]| == SLOTS
  {
    k >= TEMP - 1 || var j' := if k == i then j else 0; j' + Absent(m[m[d][k].frame], j') < SLOTS
  }

  /** Otherwise the rest of the hole can still happen to be as long as table k reads when it is taken for the
      directory. */
  predicate Coincides(w: World, d: Frame, k: nat)
    requires w.HasFrame(d) && k < TEMP && w.HasFrame(w.m[d][k].frame)
  {
    HoleSize(w, d, (k + 1) * SLOTS) == Misread(w.m, w.m[d][k].frame, k + 1)
  }

  /** The count is the length of the hole when it opens at most one table that matters, and otherwise only by
      coincidence. */
  lemma ForeignScanIff(w: World, d: Frame, i: nat, j: nat, k: nat)
    requires w.Valid() && w.IsDir(d) && w.HasFrame(d) && i < TEMP && j < SLOTS && k == FirstTable(w.m, d, i)
    ensures k < TEMP ==> w.HasFrame(w.m[d][k].frame)
    ensures OpensOne(w.m, d, i, j, k) ==> Scan(w.m, d, true, i, j) == HoleSize(w, d, i * SLOTS + j)
    ensures !OpensOne(w.m, d, i, j, k) ==>
      (Scan(w.m, d, true, i, j) == HoleSize(w, d, i * SLOTS + j) <==> Coincides(w, d, k))
  {
    ScanIsHole(w, d, i, j);
    if i < k {
      SkipAbsent(w.m, d, true, i, j, k);
      SkipAbsent(w.m, d, false, i, j, k);
    }
    if k < TEMP { FromTable(w, d, k, if k == i then j else 0, w.m[d][k].frame); }
  }

  /** Past a table that is empty from entry k + 1 on the count runs to the temporary region. So it is right exactly when
      nothing from there on is mapped. */
  lemma ForeignRunsOn(w: World, d: Frame, i: nat, j: nat, k: nat)
    requires w.Valid() && w.IsDir(d) && w.HasFrame(d) && i < TEMP && j < SLOTS && k == FirstTable(w.m, d, i)
    requires k < TEMP ==> w.HasFrame(w.m[d][k].frame)
    requires !OpensOne(w.m, d, i, j, k) && (k == i ==> j <= k + 1)
    ensures Scan(w.m, d, true, i, j) == LIMIT - (i * SLOTS + j)
    ensures Scan(w.m, d, true, i, j) == HoleSize(w, d, i * SLOTS + j) <==>
      forall q: nat | i * SLOTS + j <= q < LIMIT :: At(w, d, q) == None
  {
    var t, j', p := w.m[d][k].frame, if k == i then j else 0, i * SLOTS + j;
    TableFacts(w, d, k);
    AbsentIs(w.m[t], j');
    AllAbsent(w.m, t, true, k + 1);
    if i < k { SkipAbsent(w.m, d, true, i, j, k); }
    HoleToTheEnd(w, d, p);
  }

  lemma HoleToTheEnd(w: World, d: Frame, p: nat)
    requires p <= LIMIT
    ensures HoleSize(w, d, p) == LIMIT - p <==> forall q: nat | p <= q < LIMIT :: At(w, d, q) == None
  {
    HoleMaximal(w, d, p);
    if forall q: nat | p <= q < LIMIT :: At(w, d, q) == None { HoleIs(w, d, p, LIMIT - p); }
  }

  /** The pages of d are frames of memory other than the table of the windows. */
  ghost predicate MapsMemory(w: World, d: Frame) {
    forall k: nat, j: nat | k < TEMP && w.Look(d, k, j).Some? ::
      w.HasFrame(w.Look(d, k, j).v.frame) && w.Look(d, k, j).v.frame != w.temp
  }

  lemma TempMaps(w: World, w': World, d: Frame)
    requires w.Valid() && SameButTemp(w, w') && w'.HasFrame(w.temp) && w.IsDir(d) && MapsMemory(w, d)
    ensures MapsMemory(w', d)
  {
    TempIrrelevant(w, w');
    forall k: nat, j: nat | k < TEMP && w'.Look(d, k, j).Some?
      ensures w'.HasFrame(w'.Look(d, k, j).v.frame) && w'.Look(d, k, j).v.frame != w'.temp {
      assert w'.Look(d, k, j) == w.Look(d, k, j);
    }
  }

  ghost predicate IsTable(w: World, d: Frame, k: nat, f: Frame)
    requires w.HasFrame(d)
  {
    k < TEMP && w.m[d][k].present && w.m[d][k].frame == f
  }

  /** What the pointer to directory d can show at entry i: the directory, one of its tables, or a page without present
      entries from there on. */
  ghost predicate Shown(w: World, d: Frame, f: Frame, i: nat, j: nat)
    requires w.HasFrame(d)
  {
    && w.HasFrame(f) && f != w.temp
    && (f == d
       || (j == 0 && ((exists k: nat :: IsTable(w, d, k, f)) || forall y | i <= y < SLOTS :: !w.m[f][y].present)))
  }

  lemma ShownNotDir(w: World, d: Frame, f: Frame, i: nat, j: nat)
    requires w.Valid() && w.IsDir(d) && w.HasFrame(d) && Shown(w, d, f, i, j) && i <= TEMP
    ensures f == d || !w.IsDir(f)
  {
    if k: nat :| IsTable(w, d, k, f) { TableFacts(w, d, k); }
    else if w.IsDir(f) { DirFacts(w, f); }
  }

  lemma ShownTable(w: World, d: Frame, f: Frame, i: nat, j: nat)
    requires w.Valid() && w.IsDir(d) && w.HasFrame(d) && Shown(w, d, f, i, j) && (f != d ==> MapsMemory(w, d))
    requires i < TEMP && w.m[f][i].present
    ensures w.HasFrame(w.m[f][i].frame) && w.m[f][i].frame != w.temp
  {
    if f == d { TableFacts(w, d, i); }
    else {
      var k: nat :| IsTable(w, d, k, f);
      assert w.Look(d, k, i).Some?;
    }
  }

  /** When the window turns to a table without present entries, that is what the pointer shows. */
  lemma ShownNext(w: World, d: Frame, f: Frame, i: nat, j: nat, f': Frame)
    requires w.Valid() && w.IsDir(d) && w.HasFrame(d) && Shown(w, d, f, i, j) && MapsMemory(w, d) && i < TEMP
    requires j < SLOTS
    requires if w.m[f][i].present then f' == w.m[f][i].frame && w.HasFrame(f') && j + Absent(w.m[f'], j) == SLOTS
      else f' == f
    ensures Shown(w, d, f', i + 1, 0)
  {
    if w.m[f][i].present {
      ShownTable(w, d, f, i, j);
      if f == d { assert IsTable(w, d, i, f'); } else { AbsentIs(w.m[f'], 0); }
    }
  }

  /** One entry of what the pointer shows. */
  lemma ScanEntry(w: World, d: Frame, f: Frame, foreign: bool, i: nat, j: nat, f': Frame)
    requires w.Valid() && w.IsDir(d) && w.HasFrame(d) && Shown(w, d, f, i, j)
    requires (if foreign then MapsMemory(w, d) else f == d) && i < TEMP && j < SLOTS
    requires w.m[f][i].present ==> w.HasFrame(w.m[f][i].frame)
    requires f' == if w.m[f][i].present && foreign then w.m[f][i].frame else f
    ensures var n := if w.m[f][i].present then Absent(w.m[w.m[f][i].frame], j) else SLOTS - j;
      && (j + n < SLOTS ==> Scan(w.m, f, foreign, i, j) == n)
      && (j + n == SLOTS ==>
         Scan(w.m, f, foreign, i, j) == n + Scan(w.m, f', foreign, i + 1, 0) && Shown(w, d, f', i + 1, 0))
  {
    var n := if w.m[f][i].present then Absent(w.m[w.m[f][i].frame], j) else SLOTS - j;
    if foreign && j + n == SLOTS { ShownNext(w, d, f, i, j, f'); }
  }

  /** The windows do not matter to the count. */
  lemma {:induction false} ScanTemp(w: World, w': World, d: Frame, f: Frame, foreign: bool, i: nat, j: nat)
    requires w.Valid() && w'.Valid() && SameButTemp(w, w') && w.IsDir(d) && w.HasFrame(d) && w'.HasFrame(d)
    requires Shown(w, d, f, i, j) && (if foreign then MapsMemory(w, d) else f == d) && i <= TEMP && j < SLOTS
    ensures Scan(w'.m, f, foreign, i, j) == Scan(w.m, f, foreign, i, j)
    decreases TEMP - i
  {
    if i < TEMP {
      if w.m[f][i].present { ShownTable(w, d, f, i, j); }
      var f' := if w.m[f][i].present && foreign then w.m[f][i].frame else f;
      ScanEntry(w, d, f, foreign, i, j, f');
      var n := if w.m[f][i].present then Absent(w.m[w.m[f][i].frame], j) else SLOTS - j;
      if j + n == SLOTS { ScanTemp(w, w', d, f', foreign, i + 1, 0); }
    }
  }

  /** compute_hole_size counts at least n pages from the unmapped page p on. */
  predicate Claims(w: World, d: Frame, foreign: bool, p: nat, n: nat) {
    p < LIMIT && At(w, d, p) == None && Scan(w.m, d, foreign, p / SLOTS, p % SLOTS) >= n
  }

  /** From page lo to hi there is no such page. */
  ghost predicate NoClaim(w: World, d: Frame, foreign: bool, lo: nat, hi: nat, n: nat) {
    forall p: nat | lo <= p < hi :: !Claims(w, d, foreign, p, n)
  }

  lemma NoClaimStep(w: World, d: Frame, foreign: bool, lo: nat, p: nat, hi: nat, n: nat)
    requires NoClaim(w, d, foreign, lo, p, n) && lo <= p < hi <= LIMIT && !Claims(w, d, foreign, p, n)
    requires forall q: nat | p < q < hi :: At(w, d, q).Some?
    ensures NoClaim(w, d, foreign, lo, hi, n)
  {
  }

  /** In the current address space the claim is true. */
  lemma ClaimsFit(w: World, d: Frame, n: nat)
    requires w.Valid() && w.IsDir(d)
    ensures forall p: nat :: Claims(w, d, false, p, n) <==> Fits(w, d, p, n)
  {
    forall p: nat ensures Claims(w, d, false, p, n) <==> Fits(w, d, p, n) {
      if p < LIMIT { ScanIsHole(w, d, p / SLOTS, p % SLOTS); }
    }
  }

  lemma {:induction false} AbsentFrom(s: seq<Entry>, j: nat)
    requires j <= |s| && forall x | j <= x < |s| :: !s[x].present
    ensures Absent(s, j) == |s| - j
    decreases |s| - j
  {
    if j < |s| { AbsentFrom(s, j + 1); }
  }
}
