/** The physical frame allocator (src/frame_alloc.c) over its bitmap, under FRAME_ALLOC_LOCK. */
module FrameAlloc {
  import opened Bitmap

  const PAGE_SIZE: nat := 4096
  const LOW_MEM_MAX_IDX: nat := 0x10_0000 / PAGE_SIZE - 1

  /** A frame, NO_FRAME, or a crash inside the bitmap. */
  datatype Result = Frame(index: nat) | NoFrame | Crash

  /** Frame i is in use. */
  ghost predicate InUse(d: seq<Word>, size: nat, i: nat) { i < size && !Unset(d, i) }

  /** The frames in use. */
  ghost function Used(d: seq<Word>, size: nat): set<nat> { set i: nat | i < size && InUse(d, size, i) }

  lemma {:induction false} UsedCount(d: seq<Word>, size: nat)
    ensures |Used(d, size)| == size - Count(d, size)
  {
    if size == 0 {
      assert Used(d, size) == {};
    } else {
      UsedCount(d, size - 1);
      var n := size - 1;
      forall i: nat ensures i in Used(d, size) <==> i in Used(d, n) || (i == n && !Unset(d, n)) { }
      assert Used(d, size) == Used(d, n) + if Unset(d, n) then {} else {n};
    }
  }

  lemma UsedWith(d: seq<Word>, size: nat, i: nat, v: bool)
    requires i < size && i < WORD_BITS * |d|
    ensures Used(With(d, i, v), size) == if v then Used(d, size) - {i} else Used(d, size) + {i}
  {
    forall j: nat ensures InUse(With(d, i, v), size, j) <==> if j == i then !v else InUse(d, size, j) { }
  }

  class FrameAllocator {
    const bitmap: Bitmap

    ghost predicate Valid()
      reads this, bitmap, bitmap.data
    {
      bitmap.Valid()
    }

    constructor (b: Bitmap)
      requires b.Valid()
      ensures bitmap == b && Valid()
    {
      bitmap := b;
    }

    /** do_allocation. */
    method DoAllocation(lowMem: bool) returns (r: Result)
      requires Valid()
      modifies bitmap`free, bitmap.data
      ensures Valid()
      ensures r.Frame? ==>
        && r.index < bitmap.size && !InUse(old(bitmap.data[..]), bitmap.size, r.index)
        && Used(bitmap.data[..], bitmap.size) == Used(old(bitmap.data[..]), bitmap.size) + {r.index}
        && (lowMem ==> r.index <= LOW_MEM_MAX_IDX)
        && Least(old(bitmap.data[..]), if lowMem || bitmap.size <= LOW_MEM_MAX_IDX then 0 else LOW_MEM_MAX_IDX, r.index)
      ensures !r.Frame? ==> bitmap.data[..] == old(bitmap.data[..]) && bitmap.free == old(bitmap.free)
      ensures lowMem ==>
        r != Crash
          && (r == NoFrame <==>
             forall i: nat | i <= LOW_MEM_MAX_IDX && i < bitmap.size :: !Unset(old(bitmap.data[..]), i))
      ensures !lowMem ==> (r == NoFrame <==> old(bitmap.free) == 0)
      ensures !lowMem ==> (r == Crash <==>
        old(bitmap.free) > 0 && bitmap.size > LOW_MEM_MAX_IDX
          && !SomeUnset(old(bitmap.data[..]), LOW_MEM_MAX_IDX, bitmap.size))
    {
      ghost var d, n := bitmap.data[..], bitmap.size;
      CountNone(d, n);
      Bounds(n);
      var o := bitmap.SetNext(if lowMem then 0 else LOW_MEM_MAX_IDX);
      if o == NPos && !lowMem {
        o := bitmap.SetNext(0);
      } else if o.Found? && lowMem && o.index > LOW_MEM_MAX_IDX {
        var ok := bitmap.Clear(o.index);
        Restored(d, o.index);
        o := NPos;
      }
      if o.Found? { UsedWith(d, n, o.index, false); }
      if SomeUnset(d, LOW_MEM_MAX_IDX, n) {
        var i: nat :| LOW_MEM_MAX_IDX <= i < n && Unset(d, i);
        var j := LeastExists(d, LOW_MEM_MAX_IDX, i);
      }
      if i: nat :| i < n && Unset(d, i) { var j := LeastExists(d, 0, i); }
      r := if o.Found? then Frame(o.index) else if o == NPos then NoFrame else Crash;
    }

    /** free_frame: panics on an index out of bounds and on a frame that is not in use. */
    method Free(i: nat) returns (ok: bool)
      requires Valid()
      modifies bitmap`free, bitmap.data
      ensures Valid() && (ok <==> InUse(old(bitmap.data[..]), bitmap.size, i))
      ensures Used(bitmap.data[..], bitmap.size) == Used(old(bitmap.data[..]), bitmap.size) - (if ok then {i} else {})
      ensures !ok ==> bitmap.data[..] == old(bitmap.data[..]) && bitmap.free == old(bitmap.free)
    {
      Bounds(bitmap.size);
      var inBounds, bit := bitmap.Get(i);
      if !inBounds || !bit { return false; }
      UsedWith(bitmap.data[..], bitmap.size, i, true);
      ok := bitmap.Clear(i);
    }

    /** frames_allocated. */
    method Allocated() returns (n: nat)
      requires Valid()
      ensures n == |Used(bitmap.data[..], bitmap.size)|
    {
      UsedCount(bitmap.data[..], bitmap.size);
      CountNone(bitmap.data[..], bitmap.size);
      n := bitmap.size - bitmap.free;
    }
  }

  /** Setting an unset bit and unsetting it again changes nothing. */
  lemma Restored(d: seq<Word>, i: nat)
    requires i < WORD_BITS * |d| && Unset(d, i)
    ensures With(With(d, i, false), i, true) == d
  {
    var k, b := i / WORD_BITS, i % WORD_BITS;
    assert d[k][b := false][b := true] == d[k];
  }

  /** 256 frames of which frame 0 alone is free: alloc_frame searches from frame 255 and runs past the bitmap. */
  method LowFrameOnly() returns (r: Result, frames: FrameAllocator)
    ensures r == Crash && frames.Valid() && frames.bitmap.size == 256
    ensures forall i: nat | i < 256 :: InUse(frames.bitmap.data[..], 256, i) <==> i != 0
  {
    var words := new Word[8](_ => seq(WORD_BITS, _ => false));
    var b := new Bitmap(256, words, true);
    var ok := b.Clear(0);
    frames := new FrameAllocator(b);
    r := frames.DoAllocation(false);
  }
}
