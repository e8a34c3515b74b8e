/** Byte-granular reads and writes over the sectors of a memdisk (src/disk.c, src/memdisk.c). */
module Disk {
  import opened Memory

  const SECTOR: nat := 512
  /** off_t is 64 bits wide. */
  const OFF_LIMIT: nat := 0x1_0000_0000_0000_0000

  function Min(a: nat, b: nat): nat { if a < b then a else b }

  /** The bytes of an access that lie on a disk of size bytes. */
  function Reach(size: nat, offset: nat, len: nat): nat { if offset >= size then 0 else Min(len, size - offset) }

  /** d with s written at offset o. */
  function Splice(d: seq<Byte>, o: nat, s: seq<Byte>): (r: seq<Byte>)
    requires o + |s| <= |d|
    ensures |r| == |d|
    ensures forall i | 0 <= i < |d| :: r[i] == if o <= i < o + |s| then s[i - o] else d[i]
  {
    d[..o] + s + d[o + |s|..]
  }

  /** The sectors of an access. */
  function SectorOf(offset: nat): nat { offset / SECTOR }

  /** How far an access has come at the start of a sector: `first` is the sector of its offset. */
  function Done(size: nat, offset: nat, len: nat, sector: nat): nat
    requires SectorOf(offset) <= sector
  {
    if sector == SectorOf(offset) then 0 else Min(Reach(size, offset, len), sector * SECTOR - offset)
  }

  /** On the disk or at its end, the access has come exactly to the sector. */
  lemma AtSector(size: nat, offset: nat, len: nat, sector: nat)
    requires size % SECTOR == 0 && SectorOf(offset) <= sector && len > 0 && sector <= SectorOf(offset + len - 1)
    requires sector == SectorOf(offset) || sector <= size / SECTOR
    ensures var w := Done(size, offset, len, sector);
      w < len && offset + w == sector * SECTOR + if sector == SectorOf(offset) then offset % SECTOR else 0
  {
    var s := SectorOf(offset);
    assert offset == s * SECTOR + offset % SECTOR;
    assert sector * SECTOR <= offset + len - 1;
    if sector > s { assert (s + 1) * SECTOR <= sector * SECTOR && sector * SECTOR <= size; }
  }

  /** One sector further. */
  lemma DoneStep(size: nat, offset: nat, len: nat, sector: nat)
    requires size % SECTOR == 0 && SectorOf(offset) <= sector < size / SECTOR && len > 0
    requires sector <= SectorOf(offset + len - 1)
    ensures var w, from := Done(size, offset, len, sector), if sector == SectorOf(offset) then offset % SECTOR else 0;
      && w < len && offset + w == sector * SECTOR + from && sector * SECTOR + SECTOR <= size
      && Done(size, offset, len, sector + 1) == w + Min(len - w, SECTOR - from)
      && Done(size, offset, len, sector + 1) <= Reach(size, offset, len)
  {
    AtSector(size, offset, len, sector);
    assert (sector + 1) * SECTOR <= size;
  }

  /** The loop stopped at the end of the access or of the disk. */
  lemma DoneAll(size: nat, offset: nat, len: nat, sector: nat)
    requires size % SECTOR == 0 && SectorOf(offset) <= sector && len > 0
    requires sector > SectorOf(offset + len - 1) || sector >= size / SECTOR
    ensures Done(size, offset, len, sector) == Reach(size, offset, len)
  {
    assert offset == SectorOf(offset) * SECTOR + offset % SECTOR;
    var end := SectorOf(offset + len - 1);
    assert offset + len - 1 == end * SECTOR + (offset + len - 1) % SECTOR;
    if sector > end { assert (end + 1) * SECTOR <= sector * SECTOR; }
    if sector >= size / SECTOR { assert size / SECTOR * SECTOR <= sector * SECTOR; }
    if sector == SectorOf(offset) { assert sector >= size / SECTOR ==> offset >= size; }
  }

  class MemDisk {
    const data: array<Byte>
    const readOnly: bool

    ghost predicate Valid() { data.Length % SECTOR == 0 && data.Length < WORD }

    /** create_memdisk panics on a size that is no multiple of the sector size. */
    constructor (d: array<Byte>, ro: bool)
      requires d.Length % SECTOR == 0 && d.Length < WORD
      ensures data == d && readOnly == ro && Valid()
    {
      data, readOnly := d, ro;
    }

    /** do_update for a read: a whole sector, or nothing. */
    method ReadSector(k: nat) returns (n: nat, s: seq<Byte>)
      requires Valid()
      ensures n == if k < data.Length / SECTOR then SECTOR else 0
      ensures n > 0 ==> (k + 1) * SECTOR <= data.Length && s == data[k * SECTOR..(k + 1) * SECTOR]
    {
      if k >= data.Length / SECTOR { return 0, []; }
      n, s := SECTOR, data[k * SECTOR..(k + 1) * SECTOR];
    }

    /** do_update for a write. */
    method WriteSector(k: nat, s: seq<Byte>) returns (n: nat)
      requires Valid() && |s| == SECTOR
      modifies data
      ensures n == if !readOnly && k < data.Length / SECTOR then SECTOR else 0
      ensures n == 0 ==> data[..] == old(data[..])
      ensures n > 0 ==> (k + 1) * SECTOR <= data.Length && data[..] == Splice(old(data[..]), k * SECTOR, s)
    {
      if readOnly || k >= data.Length / SECTOR { return 0; }
      forall i | 0 <= i < SECTOR { data[k * SECTOR + i] := s[i]; }
      n := SECTOR;
    }

    /** memcpy into the caller's buffer. */
    static method CopyOut(buf: array<Byte>, n: nat, s: seq<Byte>)
      requires n + |s| <= buf.Length
      modifies buf
      ensures buf[..n + |s|] == old(buf[..n]) + s && forall i | n + |s| <= i < buf.Length :: buf[i] == old(buf[i])
    {
      forall i | 0 <= i < |s| { buf[n + i] := s[i]; }
    }

    /** memcpy of m bytes of a sector that starts at lo. */
    method CopySlice(buf: array<Byte>, n: nat, s: seq<Byte>, ghost lo: nat, from: nat, m: nat)
      requires buf != data && n + m <= buf.Length && from + m <= |s| && lo + |s| <= data.Length
      requires s == data[lo..lo + |s|]
      modifies buf
      ensures buf[..n + m] == old(buf[..n]) + data[lo + from..lo + from + m]
      ensures forall i | n + m <= i < buf.Length :: buf[i] == old(buf[i])
    {
      SliceOfSlice(data[..], lo, lo + |s|, from, from + m);
      assert data[..][lo..lo + |s|] == s && data[..][lo + from..lo + from + m] == data[lo + from..lo + from + m];
      CopyOut(buf, n, s[from..from + m]);
    }

    /** One round of the loop of disk_read. */
    method ReadOne(offset: nat, buf: array<Byte>, len: nat, n: nat, sector: nat, start: nat) returns (m: nat, ok: bool)
      requires Valid() && offset < OFF_LIMIT && 0 < len <= buf.Length && len < WORD && buf != data
      requires start == SectorOf(offset) <= sector <= SectorOf((offset + len - 1) % OFF_LIMIT)
      requires n == Done(data.Length, offset, len, sector)
      modifies buf
      ensures ok <==> sector < data.Length / SECTOR
      ensures !ok ==> buf[..] == old(buf[..])
      ensures ok ==>
        (offset + len - 1) % OFF_LIMIT == offset + len - 1 && m == Done(data.Length, offset, len, sector + 1) - n
      ensures ok ==>
        n + m <= len && offset + n + m <= data.Length
          && buf[..n + m] == old(buf[..n]) + data[offset + n..offset + n + m]
      ensures ok ==> forall i | n + m <= i < buf.Length :: buf[i] == old(buf[i])
    {
      var read, s := ReadSector(sector);
      if read == 0 { return 0, false; }
      NoWrap(offset, len, sector);
      DoneStep(data.Length, offset, len, sector);
      var from := if sector == start then offset - sector * SECTOR else 0;
      // The ASSERTs.
      assert from < SECTOR && n <= len && read == SECTOR;
      m, ok := Min(len - n, SECTOR - from), true;
      CopySlice(buf, n, s, sector * SECTOR, from, m);
    }

    /** That round, seen from the start of the access. */
    method ReadRound(offset: nat, buf: array<Byte>, len: nat, n: nat, sector: nat, start: nat)
      returns (n': nat, ok: bool)
      requires Valid() && offset < OFF_LIMIT && 0 < len <= buf.Length && len < WORD && buf != data
      requires start == SectorOf(offset) <= sector <= SectorOf((offset + len - 1) % OFF_LIMIT)
      requires n == Done(data.Length, offset, len, sector) <= Reach(data.Length, offset, len)
      requires n > 0 ==> buf[..n] == data[offset..offset + n]
      modifies buf
      ensures ok <==> sector < data.Length / SECTOR
      ensures !ok ==> buf[..] == old(buf[..])
      ensures ok ==> n <= n' == Done(data.Length, offset, len, sector + 1) <= Reach(data.Length, offset, len)
      ensures ok && n' > 0 ==> buf[..n'] == data[offset..offset + n']
      ensures ok ==> forall i | n' <= i < buf.Length :: buf[i] == old(buf[i])
    {
      var m;
      m, ok := ReadOne(offset, buf, len, n, sector, start);
      n' := n + m;
      if ok {
        DoneStep(data.Length, offset, len, sector);
        assert data[offset..offset + n + m] == data[offset..offset + n] + data[offset + n..offset + n + m];
      }
    }

    /** disk_read. */
    method Read(offset: nat, buf: array<Byte>, len: nat) returns (n: nat)
      requires Valid() && offset < OFF_LIMIT && len <= buf.Length && len < WORD && buf != data
      modifies buf
      ensures n == Reach(data.Length, offset, len)
      ensures n > 0 ==> offset + n <= data.Length && buf[..n] == data[offset..offset + n]
      ensures forall i | n <= i < buf.Length :: buf[i] == old(buf[i])
    {
      if len == 0 { return 0; }
      var start, end := SectorOf(offset), SectorOf((offset + len - 1) % OFF_LIMIT);
      n := 0;
      var sector := start;
      while sector <= end
        invariant start <= sector && n == Done(data.Length, offset, len, sector) <= Reach(data.Length, offset, len)
        invariant n > 0 ==> buf[..n] == data[offset..offset + n]
        invariant forall i | n <= i < buf.Length :: buf[i] == old(buf[i])
        decreases if sector > end then 0 else end + 1 - sector
      {
        var n', ok := ReadRound(offset, buf, len, n, sector, start);
        if !ok { break; }
        n, sector := n', sector + 1;
      }
      Finished(data.Length, offset, len, sector);
    }

    /** One round of the loop of disk_write on the image d. */
    method WriteRound(offset: nat, buf: seq<Byte>, len: nat, n: nat, sector: nat, start: nat, end: nat,
      ghost d: seq<Byte>)
      returns (n': nat, ok: bool)
      requires Valid() && offset < OFF_LIMIT && 0 < len <= |buf| && len < WORD && |d| == data.Length
      requires start == SectorOf(offset) <= sector <= end == SectorOf((offset + len - 1) % OFF_LIMIT)
      requires n == Done(data.Length, offset, len, sector) <= Reach(data.Length, offset, len)
      requires sector == start || sector <= data.Length / SECTOR
      requires data[..] == if n > 0 then Splice(d, offset, buf[..n]) else d
      modifies data
      ensures ok <==> !readOnly && sector < data.Length / SECTOR
      ensures !ok ==> data[..] == old(data[..])
      ensures ok ==> n' == Done(data.Length, offset, len, sector + 1) <= Reach(data.Length, offset, len)
      ensures ok ==> data[..] == if n' > 0 then Splice(d, offset, buf[..n']) else d
    {
      ghost var before, from := data[..], if sector == start then offset % SECTOR else 0;
      NoWrap(offset, len, sector);
      AtSector(data.Length, offset, len, sector);
      PartialOrWhole(data.Length, offset, len, sector, start, end);
      var m;
      m, ok := WriteOne(offset, buf, len, n, sector, start, end, from);
      n' := n + m;
      if ok {
        DoneStep(data.Length, offset, len, sector);
        SpliceMore(d, before, data[..], offset, buf, n, m);
      }
    }

    /** disk_write. */
    method Write(offset: nat, buf: seq<Byte>, len: nat) returns (n: nat)
      requires Valid() && offset < OFF_LIMIT && len <= |buf| && len < WORD
      modifies data
      ensures n == if readOnly then 0 else Reach(data.Length, offset, len)
      ensures n > 0 ==> offset + n <= data.Length && data[..] == Splice(old(data[..]), offset, buf[..n])
      ensures n == 0 ==> data[..] == old(data[..])
    {
      if len == 0 { return 0; }
      var start, end := SectorOf(offset), SectorOf((offset + len - 1) % OFF_LIMIT);
      n := 0;
      var sector := start;
      while sector <= end
        invariant start <= sector && n == Done(data.Length, offset, len, sector) <= Reach(data.Length, offset, len)
        invariant readOnly ==> sector == start
        invariant sector == start || sector <= data.Length / SECTOR
        invariant n > 0 ==> data[..] == Splice(old(data[..]), offset, buf[..n])
        invariant n == 0 ==> data[..] == old(data[..])
        decreases if sector > end then 0 else end + 1 - sector
      {
        var n', ok := WriteRound(offset, buf, len, n, sector, start, end, old(data[..]));
        if !ok { break; }
        n, sector := n', sector + 1;
      }
      if !readOnly { Finished(data.Length, offset, len, sector); }
    }

    /** disk_write and then disk_read at any place: where both were, what was written; elsewhere, what was there. */
    method WriteThenRead(offset: nat, s: seq<Byte>, at: nat, buf: array<Byte>, len: nat) returns (n: nat, k: nat)
      requires Valid() && offset < OFF_LIMIT && |s| < WORD && at < OFF_LIMIT && len <= buf.Length && len < WORD
      requires buf != data
      modifies data, buf
      ensures n == (if readOnly then 0 else Reach(data.Length, offset, |s|)) && k == Reach(data.Length, at, len)
      ensures forall i | 0 <= i < k ::
        buf[i] == if offset <= at + i < offset + n then s[at + i - offset] else old(data[..])[at + i]
    {
      n := Write(offset, s, |s|);
      k := Read(at, buf, len);
      assert forall i | 0 <= i < k :: buf[i] == buf[..k][i] == data[at..at + k][i] == data[..][at + i];
    }

    /** One round of the loop of disk_write: a partial update through the sector's old contents, or a whole sector. */
    method WriteOne(offset: nat, buf: seq<Byte>, len: nat, n: nat, sector: nat, start: nat, end: nat, ghost from: nat)
      returns (m: nat, ok: bool)
      requires Valid() && n < len <= |buf| && from < SECTOR && offset + n == sector * SECTOR + from
      requires (sector == start && offset % SECTOR != 0) || (sector == end && (offset + len) % SECTOR != 0)
        || (from == 0 && n + SECTOR <= len)
      modifies data
      ensures ok <==> !readOnly && sector < data.Length / SECTOR
      ensures !ok ==> data[..] == old(data[..])
      ensures ok ==> m == Min(len - n, SECTOR - from) && offset + n + m <= data.Length
      ensures ok ==> data[..] == Splice(old(data[..]), offset + n, buf[n..n + m])
    {
      if (sector == start && offset % SECTOR != 0) || (sector == end && (offset + len) % SECTOR != 0) {
        m, ok := WritePartial(buf[n..len], sector, offset + n - sector * SECTOR);
        assert ok ==> buf[n..len][..m] == buf[n..n + m];
      } else {
        // The two ASSERTs on the buffer.
        assert n < len && n + SECTOR <= len;
        m := WriteSector(sector, buf[n..n + SECTOR]);
        ok := m == SECTOR;
      }
    }

    /** Overwrites part of a sector with what fits of s, through its old contents. */
    method WritePartial(s: seq<Byte>, sector: nat, from: nat) returns (m: nat, ok: bool)
      requires Valid() && from < SECTOR
      modifies data
      ensures ok <==> !readOnly && sector < data.Length / SECTOR
      ensures !ok ==> data[..] == old(data[..])
      ensures ok ==> m == Min(|s|, SECTOR - from) && sector * SECTOR + from + m <= data.Length
      ensures ok ==> data[..] == Splice(old(data[..]), sector * SECTOR + from, s[..m])
    {
      var read, curr := ReadSector(sector);
      if read != SECTOR { return 0, false; }
      m := Min(SECTOR - from, |s|);
      SpliceSector(data[..], sector, from, s[..m]);
      var res := WriteSector(sector, Splice(curr, from, s[..m]));
      ok := res == SECTOR;
    }
  }

  lemma SliceOfSlice(d: seq<Byte>, lo: nat, hi: nat, i: nat, j: nat)
    requires i <= j && lo + j <= hi <= |d|
    ensures d[lo..hi][i..j] == d[lo + i..lo + j]
  {
    var s := d[lo..hi];
    forall k | 0 <= k < j - i ensures s[i..j][k] == d[lo + i..lo + j][k] { assert s[i + k] == d[lo + (i + k)]; }
    assert s[i..j] == d[lo + i..lo + j];
  }

  /** Inside the disk, the end of the access does not wrap. */
  lemma NoWrap(offset: nat, len: nat, sector: nat)
    requires 0 < len < WORD && offset < OFF_LIMIT
    requires SectorOf(offset) <= sector <= SectorOf((offset + len - 1) % OFF_LIMIT)
    ensures (offset + len - 1) % OFF_LIMIT == offset + len - 1
  {
  }

  lemma Finished(size: nat, offset: nat, len: nat, sector: nat)
    requires size % SECTOR == 0 && size < WORD && 0 < len < WORD && offset < OFF_LIMIT && SectorOf(offset) <= sector
    requires sector > SectorOf((offset + len - 1) % OFF_LIMIT) || sector >= size / SECTOR
    ensures Done(size, offset, len, sector) == Reach(size, offset, len)
  {
    if (offset + len - 1) % OFF_LIMIT == offset + len - 1 {
      DoneAll(size, offset, len, sector);
    } else {
      assert offset >= size;
    }
  }

  /** A sector that is neither a partial first nor a partial last one is written whole. */
  lemma WholeSector(size: nat, offset: nat, len: nat, sector: nat, start: nat, end: nat)
    requires size % SECTOR == 0 && 0 < len && start == SectorOf(offset) <= sector <= end == SectorOf(offset + len - 1)
    requires sector == start || sector <= size / SECTOR
    requires sector == start ==> offset % SECTOR == 0
    requires sector == end ==> (offset + len) % SECTOR == 0
    ensures Done(size, offset, len, sector) + SECTOR <= len
  {
    AtSector(size, offset, len, sector);
    var last := offset + len - 1;
    assert last == end * SECTOR + last % SECTOR;
    if sector < end {
      assert (sector + 1) * SECTOR <= end * SECTOR;
    } else {
      assert last % SECTOR == SECTOR - 1;
    }
  }

  lemma PartialOrWhole(size: nat, offset: nat, len: nat, sector: nat, start: nat, end: nat)
    requires size % SECTOR == 0 && 0 < len && start == SectorOf(offset) <= sector <= end == SectorOf(offset + len - 1)
    requires sector == start || sector <= size / SECTOR
    ensures (sector == start && offset % SECTOR != 0) || (sector == end && (offset + len) % SECTOR != 0) ||
      ((sector == start ==> offset % SECTOR == 0) && Done(size, offset, len, sector) + SECTOR <= len)
  {
    if !((sector == start && offset % SECTOR != 0) || (sector == end && (offset + len) % SECTOR != 0)) {
      WholeSector(size, offset, len, sector, start, end);
    }
  }

  lemma SpliceSector(d: seq<Byte>, k: nat, from: nat, s: seq<Byte>)
    requires (k + 1) * SECTOR <= |d| && from + |s| <= SECTOR
    ensures Splice(d, k * SECTOR, Splice(d[k * SECTOR..(k + 1) * SECTOR], from, s)) == Splice(d, k * SECTOR + from, s)
  {
  }

  lemma SpliceMore(d0: seq<Byte>, d1: seq<Byte>, d2: seq<Byte>, o: nat, buf: seq<Byte>, n: nat, m: nat)
    requires o + n + m <= |d0| && n + m <= |buf| && (if n > 0 then d1 == Splice(d0, o, buf[..n]) else d1 == d0)
    requires d2 == Splice(d1, o + n, buf[n..n + m])
    ensures d2 == Splice(d0, o, buf[..n + m])
  {
  }
}
