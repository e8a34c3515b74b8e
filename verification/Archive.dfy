/**
 Archives of headers and data (src/ustar.c): the walk over the headers, and what a
 write to one file's data leaves alone. How a header is read is a parameter.
 */
module Archive {
  import opened Memory
  import opened Disk

  const BLOCK: nat := 512

  /** What the code gets out of a header. */
  datatype Entry = Entry(name: seq<Byte>, size: nat, file: bool) | Malformed

  type Parser = seq<Byte> -> Entry

  function RoundUp(n: nat): (r: nat)
    ensures n <= r < n + BLOCK && r % BLOCK == 0
  {
    (n / BLOCK + if n % BLOCK != 0 then 1 else 0) * BLOCK
  }

  /** From one header to the next. */
  function Stride(e: Entry): (r: nat)
    requires e.Entry?
    ensures r % BLOCK == 0 && (if e.file then BLOCK + e.size <= r < 2 * BLOCK + e.size else r == BLOCK)
  {
    BLOCK + if e.file then RoundUp(e.size) else 0
  }

  // ---------- an archive ----------

  /** The entry whose header is at o; there is none past the end. */
  function EntryAt(p: Parser, img: seq<Byte>, o: nat): Entry {
    if o + BLOCK > |img| then Malformed else p(img[o..o + BLOCK])
  }

  /** Every header the walk meets is in order, and the walk never passes 4 GiB. */
  predicate WellFormed(p: Parser, img: seq<Byte>, o: nat)
    decreases |img| - o
  {
    o + BLOCK <= |img| ==>
      var e := EntryAt(p, img, o);
      e.Entry? && o + Stride(e) < WORD && WellFormed(p, img, o + Stride(e))
  }

  /** The offsets of the headers the walk meets. */
  function Walk(p: Parser, img: seq<Byte>, o: nat): seq<nat>
    requires WellFormed(p, img, o)
    decreases |img| - o
  {
    if o + BLOCK > |img| then [] else [o] + Walk(p, img, o + Stride(EntryAt(p, img, o)))
  }

  datatype Option = None | Some(offset: nat)

  /** The first header with that full name. */
  function Find(p: Parser, img: seq<Byte>, o: nat, path: seq<Byte>): Option
    requires WellFormed(p, img, o)
    decreases |img| - o
  {
    if o + BLOCK > |img| then None
    else if EntryAt(p, img, o).name == path then Some(o)
    else Find(p, img, o + Stride(EntryAt(p, img, o)), path)
  }

  /** What of a file's data lies on the disk. */
  function Content(img: seq<Byte>, o: nat, size: nat): seq<Byte>
    requires o + BLOCK <= |img|
  {
    img[o + BLOCK..o + BLOCK + Min(size, |img| - o - BLOCK)]
  }

  // ---------- the walk ----------

  lemma {:induction false} WalkAbove(p: Parser, img: seq<Byte>, o: nat, x: nat)
    requires WellFormed(p, img, o) && x in Walk(p, img, o)
    ensures EntryAt(p, img, o).Entry? && EntryAt(p, img, x).Entry? && o <= x && x + BLOCK <= |img|
    ensures WellFormed(p, img, x)
    ensures x == o || x >= o + Stride(EntryAt(p, img, o))
    decreases |img| - o
  {
    if x != o { WalkAbove(p, img, o + Stride(EntryAt(p, img, o)), x); }
  }

  /** Two entries do not overlap: the later one starts after the data of the earlier. */
  lemma {:induction false} EntriesApart(p: Parser, img: seq<Byte>, o: nat, x: nat, y: nat)
    requires WellFormed(p, img, o) && x in Walk(p, img, o) && y in Walk(p, img, o) && x < y
    ensures EntryAt(p, img, x).Entry? && EntryAt(p, img, y).Entry? && x + Stride(EntryAt(p, img, x)) <= y
    ensures y + BLOCK <= |img|
    decreases |img| - o
  {
    WalkAbove(p, img, o, x);
    WalkAbove(p, img, o, y);
    if x != o { EntriesApart(p, img, o + Stride(EntryAt(p, img, o)), x, y); }
  }

  /** find_file finds an entry of the walk, with the name asked for, and the first one. */
  lemma {:induction false} FindFirst(p: Parser, img: seq<Byte>, o: nat, path: seq<Byte>, y: nat)
    requires WellFormed(p, img, o) && y in Walk(p, img, o)
    ensures EntryAt(p, img, y).Entry?
    ensures match Find(p, img, o, path)
      case Some(x) => x in Walk(p, img, o) && EntryAt(p, img, x).Entry? && EntryAt(p, img, x).name == path
        && (y < x ==> EntryAt(p, img, y).name != path)
      case None => EntryAt(p, img, y).name != path
    decreases |img| - o
  {
    WalkAbove(p, img, o, y);
    var next := o + Stride(EntryAt(p, img, o));
    if EntryAt(p, img, o).name != path {
      if y != o { FindFirst(p, img, next, path, y); } else { FindIn(p, img, next, path); }
    }
  }

  lemma {:induction false} FindIn(p: Parser, img: seq<Byte>, o: nat, path: seq<Byte>)
    requires WellFormed(p, img, o)
    ensures Find(p, img, o, path).Some? ==>
      var x := Find(p, img, o, path).offset;
        x in Walk(p, img, o) && EntryAt(p, img, x).Entry? && EntryAt(p, img, x).name == path && x >= o
    decreases |img| - o
  {
    if o + BLOCK <= |img| { FindIn(p, img, o + Stride(EntryAt(p, img, o)), path); }
  }

  // ---------- writing through a file ----------

  /** The images differ only between lo and hi. */
  predicate SameBut(img: seq<Byte>, img': seq<Byte>, lo: nat, hi: nat) {
    |img'| == |img| && forall i | 0 <= i < |img| && !(lo <= i < hi) :: img'[i] == img[i]
  }

  lemma SameEntry(p: Parser, img: seq<Byte>, img': seq<Byte>, lo: nat, hi: nat, x: nat)
    requires SameBut(img, img', lo, hi) && (x + BLOCK <= lo || hi <= x)
    ensures EntryAt(p, img', x) == EntryAt(p, img, x)
  {
    if x + BLOCK <= |img| { assert img'[x..x + BLOCK] == img[x..x + BLOCK]; }
  }

  /** A walk whose headers do not change meets the same headers and finds the same files. */
  lemma {:induction false} WalkSame(p: Parser, img: seq<Byte>, img': seq<Byte>, o: nat, lo: nat, hi: nat,
    path: seq<Byte>)
    requires WellFormed(p, img, o) && SameBut(img, img', lo, hi)
    requires forall x | x in Walk(p, img, o) :: x + BLOCK <= lo || hi <= x
    ensures WellFormed(p, img', o) && Walk(p, img', o) == Walk(p, img, o)
    ensures Find(p, img', o, path) == Find(p, img, o, path)
    decreases |img| - o
  {
    if o + BLOCK <= |img| {
      var next := o + Stride(EntryAt(p, img, o));
      assert Walk(p, img, o) == [o] + Walk(p, img, next);
      assert o in Walk(p, img, o);
      SameEntry(p, img, img', lo, hi, o);
      forall x | x in Walk(p, img, next) ensures x + BLOCK <= lo || hi <= x { assert x in Walk(p, img, o); }
      WalkSame(p, img, img', next, lo, hi, path);
    }
  }

  /** Bytes lo to hi lie in what the walk skips after the header at x. */
  predicate InData(p: Parser, img: seq<Byte>, x: nat, lo: nat, hi: nat) {
    EntryAt(p, img, x).Entry? && x + BLOCK <= lo <= hi <= x + Stride(EntryAt(p, img, x))
  }

  lemma DataOffHeaders(p: Parser, img: seq<Byte>, x: nat, lo: nat, hi: nat, y: nat)
    requires WellFormed(p, img, 0) && x in Walk(p, img, 0) && y in Walk(p, img, 0) && InData(p, img, x, lo, hi)
    ensures y + BLOCK <= lo || hi <= y
  {
    if x < y { EntriesApart(p, img, 0, x, y); } else if y < x { EntriesApart(p, img, 0, y, x); }
  }

  /** Overwriting data of one file preserves every header, what every path finds, and every other file's contents. */
  lemma WriteIsLocal(p: Parser, img: seq<Byte>, img': seq<Byte>, x: nat, lo: nat, hi: nat, path: seq<Byte>, y: nat)
    requires WellFormed(p, img, 0) && x in Walk(p, img, 0) && InData(p, img, x, lo, hi) && SameBut(img, img', lo, hi)
    ensures WellFormed(p, img', 0) && Walk(p, img', 0) == Walk(p, img, 0)
    ensures Find(p, img', 0, path) == Find(p, img, 0, path)
    ensures y in Walk(p, img, 0) ==> EntryAt(p, img', y) == EntryAt(p, img, y) && EntryAt(p, img, y).Entry?
    ensures y in Walk(p, img, 0) && y != x && EntryAt(p, img, y).file ==>
      Content(img', y, EntryAt(p, img, y).size) == Content(img, y, EntryAt(p, img, y).size)
  {
    forall z | z in Walk(p, img, 0) ensures z + BLOCK <= lo || hi <= z { DataOffHeaders(p, img, x, lo, hi, z); }
    WalkSame(p, img, img', 0, lo, hi, path);
    if y in Walk(p, img, 0) {
      WalkAbove(p, img, 0, y);
      SameEntry(p, img, img', lo, hi, y);
      if y != x && EntryAt(p, img, y).file {
        if x < y { EntriesApart(p, img, 0, x, y); } else { EntriesApart(p, img, 0, y, x); }
      }
    }
  }

  // ---------- when a write stays in its file ----------

  /** The blocks at w are the same in both images. */
  ghost predicate BlocksKept(img: seq<Byte>, img': seq<Byte>, w: seq<nat>) {
    |img'| == |img| && forall y | y in w :: y + BLOCK <= |img| && img'[y..y + BLOCK] == img[y..y + BLOCK]
  }

  /** ustar_do_file_update may write s at off in the entry at x. */
  predicate MayWrite(p: Parser, img: seq<Byte>, x: nat, off: nat, s: seq<Byte>) {
    EntryAt(p, img, x).Entry? && off + |s| <= EntryAt(p, img, x).size && x + BLOCK + off + |s| <= |img|
  }

  /** Every write to the entry at x leaves the headers alone. */
  ghost predicate Harmless(p: Parser, img: seq<Byte>, x: nat)
    requires WellFormed(p, img, 0)
  {
    forall off: nat, s: seq<Byte> {:trigger MayWrite(p, img, x, off, s)} | MayWrite(p, img, x, off, s) ::
      BlocksKept(img, Splice(img, x + BLOCK + off, s), Walk(p, img, 0))
  }

  lemma {:induction false} NextInWalk(p: Parser, img: seq<Byte>, o: nat, x: nat)
    requires WellFormed(p, img, o) && x in Walk(p, img, o)
    ensures EntryAt(p, img, x).Entry?
    ensures x + Stride(EntryAt(p, img, x)) + BLOCK <= |img| ==> x + Stride(EntryAt(p, img, x)) in Walk(p, img, o)
    decreases |img| - o
  {
    var next := o + Stride(EntryAt(p, img, o));
    if x == o {
      assert next + BLOCK <= |img| ==> Walk(p, img, next)[0] == next;
    } else {
      NextInWalk(p, img, next, x);
    }
  }

  /** A write that misses the blocks. */
  lemma BlocksMissed(img: seq<Byte>, o: nat, s: seq<Byte>, w: seq<nat>)
    requires o + |s| <= |img| && forall y | y in w :: y + BLOCK <= |img| && (y + BLOCK <= o || o + |s| <= y)
    ensures BlocksKept(img, Splice(img, o, s), w)
  {
  }

  lemma BlockHit(img: seq<Byte>, y: nat, b: Byte, w: seq<nat>)
    requires y + BLOCK <= |img| && b != img[y] && y in w
    ensures !BlocksKept(img, Splice(img, y, [b]), w)
  {
    assert Splice(img, y, [b])[y..y + BLOCK][0] == b && img[y..y + BLOCK][0] == img[y];
  }

  lemma WriteOffHeaders(p: Parser, img: seq<Byte>, x: nat, off: nat, s: seq<Byte>, y: nat)
    requires WellFormed(p, img, 0) && x in Walk(p, img, 0) && y in Walk(p, img, 0) && MayWrite(p, img, x, off, s)
    requires EntryAt(p, img, x).file || EntryAt(p, img, x).size == 0 || x + 2 * BLOCK > |img|
    ensures y + BLOCK <= |img| && (y + BLOCK <= x + BLOCK + off || x + BLOCK + off + |s| <= y)
  {
    WalkAbove(p, img, 0, y);
    if x < y { EntriesApart(p, img, 0, x, y); } else if y < x { EntriesApart(p, img, 0, y, x); }
  }

  lemma WriteKeepsHeaders(p: Parser, img: seq<Byte>, x: nat, off: nat, s: seq<Byte>)
    requires WellFormed(p, img, 0) && x in Walk(p, img, 0) && MayWrite(p, img, x, off, s)
    requires EntryAt(p, img, x).file || EntryAt(p, img, x).size == 0 || x + 2 * BLOCK > |img|
    ensures BlocksKept(img, Splice(img, x + BLOCK + off, s), Walk(p, img, 0))
  {
    forall y | y in Walk(p, img, 0)
      ensures y + BLOCK <= |img| && (y + BLOCK <= x + BLOCK + off || x + BLOCK + off + |s| <= y) {
      WriteOffHeaders(p, img, x, off, s, y);
    }
    BlocksMissed(img, x + BLOCK + off, s, Walk(p, img, 0));
  }

  lemma FirstByte(p: Parser, img: seq<Byte>, x: nat, b: Byte)
    requires EntryAt(p, img, x).Entry? && EntryAt(p, img, x).size > 0 && x + 2 * BLOCK <= |img|
    ensures MayWrite(p, img, x, 0, [b]) && Splice(img, x + BLOCK + 0, [b]) == Splice(img, x + BLOCK, [b])
  {
  }

  /** A directory, say, with a size: writing its first byte hits the next header. */
  lemma OtherTypesHarm(p: Parser, img: seq<Byte>, x: nat)
    requires WellFormed(p, img, 0) && x in Walk(p, img, 0) && EntryAt(p, img, x).Entry?
    requires !EntryAt(p, img, x).file && EntryAt(p, img, x).size > 0 && x + 2 * BLOCK <= |img|
    ensures !Harmless(p, img, x)
  {
    var y := x + BLOCK;
    var b: Byte := if img[y] == 0 then 1 else 0;
    NextInWalk(p, img, 0, x);
    BlockHit(img, y, b, Walk(p, img, 0));
    FirstByte(p, img, x, b);
  }

  /** Writes to an entry stay out of the headers exactly when it is a file, or has no size, or ends the disk: an entry
      of another type is not skipped over by the walk, but its size is honoured by the write. */
  lemma HarmlessIff(p: Parser, img: seq<Byte>, x: nat)
    requires WellFormed(p, img, 0) && x in Walk(p, img, 0)
    ensures EntryAt(p, img, x).Entry?
    ensures Harmless(p, img, x) <==> EntryAt(p, img, x).file || EntryAt(p, img, x).size == 0 || x + 2 * BLOCK > |img|
  {
    WalkAbove(p, img, 0, x);
    if EntryAt(p, img, x).file || EntryAt(p, img, x).size == 0 || x + 2 * BLOCK > |img| {
      forall off: nat, s: seq<Byte> | MayWrite(p, img, x, off, s)
        ensures BlocksKept(img, Splice(img, x + BLOCK + off, s), Walk(p, img, 0)) {
        WriteKeepsHeaders(p, img, x, off, s);
      }
    } else {
      OtherTypesHarm(p, img, x);
    }
  }

  /** From img to img' only the data of the entry at x may have changed. */
  ghost predicate Intact(p: Parser, img: seq<Byte>, img': seq<Byte>, x: nat)
    requires WellFormed(p, img, 0)
  {
    && WellFormed(p, img', 0) && Walk(p, img', 0) == Walk(p, img, 0)
    && (forall path :: Find(p, img', 0, path) == Find(p, img, 0, path))
    && (forall y | y in Walk(p, img, 0) :: EntryAt(p, img', y) == EntryAt(p, img, y))
    && (forall y | y in Walk(p, img, 0) && y != x && EntryAt(p, img, y).Entry? && EntryAt(p, img, y).file ::
          && y + BLOCK <= |img|
          && Content(img', y, EntryAt(p, img, y).size) == Content(img, y, EntryAt(p, img, y).size))
  }

  lemma LocalEverywhere(p: Parser, img: seq<Byte>, img': seq<Byte>, x: nat, lo: nat, n: nat)
    requires WellFormed(p, img, 0) && x in Walk(p, img, 0) && InData(p, img, x, lo, lo + n)
    requires SameBut(img, img', lo, lo + n)
    ensures Intact(p, img, img', x)
  {
    WriteIsLocal(p, img, img', x, lo, lo + n, [], x);
    forall path
      ensures Find(p, img', 0, path) == Find(p, img, 0, path) { WriteIsLocal(p, img, img', x, lo, lo + n, path, x); }
    forall y | y in Walk(p, img, 0) ensures EntryAt(p, img', y) == EntryAt(p, img, y) && y + BLOCK <= |img|
      && (y != x && EntryAt(p, img, y).Entry? && EntryAt(p, img, y).file ==>
         Content(img', y, EntryAt(p, img, y).size) == Content(img, y, EntryAt(p, img, y).size)) {
      WriteIsLocal(p, img, img', x, lo, lo + n, [], y);
      WalkAbove(p, img, 0, y);
    }
  }

  /** Writing inside the size of an entry that the walk skips over. */
  lemma SpliceKeeps(p: Parser, img: seq<Byte>, x: nat, e: Entry, offset: nat, s: seq<Byte>)
    requires WellFormed(p, img, 0) && x in Walk(p, img, 0) && e == EntryAt(p, img, x) && e.Entry?
    requires (e.file || e.size == 0) && offset + |s| <= e.size && x + BLOCK + offset + |s| <= |img|
    ensures Intact(p, img, Splice(img, x + BLOCK + offset, s), x)
  {
    SpliceSame(img, x + BLOCK + offset, s);
    SkippedData(p, img, x, e, offset, |s|);
    LocalEverywhere(p, img, Splice(img, x + BLOCK + offset, s), x, x + BLOCK + offset, |s|);
  }

  lemma SpliceSame(img: seq<Byte>, at: nat, s: seq<Byte>)
    requires at + |s| <= |img|
    ensures SameBut(img, Splice(img, at, s), at, at + |s|)
  {
  }

  lemma SkippedData(p: Parser, img: seq<Byte>, x: nat, e: Entry, offset: nat, n: nat)
    requires e == EntryAt(p, img, x) && e.Entry? && (e.file || e.size == 0) && offset + n <= e.size
    ensures InData(p, img, x, x + BLOCK + offset, x + BLOCK + offset + n)
  {
  }

  lemma NothingKeeps(p: Parser, img: seq<Byte>, x: nat, e: Entry)
    requires WellFormed(p, img, 0) && x in Walk(p, img, 0) && e == EntryAt(p, img, x) && e.Entry?
    ensures Intact(p, img, img, x)
  {
    LocalEverywhere(p, img, img, x, x + BLOCK, 0);
  }

  lemma FindStep(p: Parser, img: seq<Byte>, o: nat, path: seq<Byte>)
    requires WellFormed(p, img, o) && o + BLOCK <= |img|
    ensures var e := EntryAt(p, img, o);
      && e == p(img[o..o + BLOCK]) && e.Entry? && o + Stride(e) < WORD && WellFormed(p, img, o + Stride(e))
      && Find(p, img, o, path) == if e.name == path then Some(o) else Find(p, img, o + Stride(e), path)
  {
  }
}
