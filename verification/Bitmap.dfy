/**
 The inverted bitmap (src/bitmap_asm.S, src/bitmap.c): a one in memory is an unset
 bit. A word is its 32 bits, least significant first, which is what BT, BTR, BTS
 and BSF work on.
 */
module Bitmap {
  const WORD_BITS: nat := 32

  type Word = w: seq<bool> | |w| == WORD_BITS witness seq(WORD_BITS, _ => false)

  /** BITMAP_WORD_COUNT */
  function WordCount(size: nat): nat { size / WORD_BITS + if size % WORD_BITS != 0 then 1 else 0 }

  /** Bit i of memory: true when the bitmap's bit i is not set. */
  predicate Unset(d: seq<Word>, i: nat) {
    i < WORD_BITS * |d| && d[i / WORD_BITS][i % WORD_BITS]
  }

  /** BTR and BTS. */
  function With(d: seq<Word>, i: nat, v: bool): (r: seq<Word>)
    requires i < WORD_BITS * |d|
    ensures |r| == |d|
    ensures forall j: nat {:trigger Unset(r, j)} :: Unset(r, j) <==> if j == i then v else Unset(d, j)
  {
    var r := d[i / WORD_BITS := d[i / WORD_BITS][i % WORD_BITS := v]];
    assert forall j: nat :: Unset(r, j) <==> if j == i then v else Unset(d, j) by {
      forall j: nat ensures Unset(r, j) <==> if j == i then v else Unset(d, j) {
        if j / WORD_BITS == i / WORD_BITS && j % WORD_BITS == i % WORD_BITS { assert j == i; }
      }
    }
    r
  }

  /** How many of the first n bits are unset. */
  ghost function Count(d: seq<Word>, n: nat): nat {
    if n == 0 then 0 else Count(d, n - 1) + if Unset(d, n - 1) then 1 else 0
  }

  lemma {:induction false} CountSame(d: seq<Word>, d': seq<Word>, n: nat)
    requires forall j: nat | j < n :: Unset(d', j) == Unset(d, j)
    ensures Count(d', n) == Count(d, n)
  {
    if n > 0 { CountSame(d, d', n - 1); }
  }

  lemma {:induction false} CountWith(d: seq<Word>, i: nat, v: bool, n: nat)
    requires i < n && i < WORD_BITS * |d|
    ensures Count(With(d, i, v), n) == Count(d, n) + (if v && !Unset(d, i) then 1 else if !v && Unset(d, i) then -1
      else 0)
  {
    if i == n - 1 { CountSame(d, With(d, i, v), n - 1); } else { CountWith(d, i, v, n - 1); }
  }

  lemma {:induction false} CountNone(d: seq<Word>, n: nat)
    ensures Count(d, n) == 0 <==> forall i: nat | i < n :: !Unset(d, i)
    ensures Count(d, n) <= n
  {
    if n > 0 { CountNone(d, n - 1); }
  }

  lemma {:induction false} CountAll(d: seq<Word>, n: nat)
    requires forall i: nat | i < n :: Unset(d, i)
    ensures Count(d, n) == n
  {
    if n > 0 { CountAll(d, n - 1); }
  }

  // ---------- searching ----------

  /** All bits from number n up, the -1 shifted left. */
  function HighBits(n: nat): Word { seq(WORD_BITS, i requires 0 <= i < WORD_BITS => i >= n) }

  function And(a: Word, b: Word): Word { seq(WORD_BITS, i requires 0 <= i < WORD_BITS => a[i] && b[i]) }

  predicate IsZero(w: Word) { forall i | 0 <= i < WORD_BITS :: !w[i] }

  /** i is the least unset bit at or above start. */
  ghost predicate Least(d: seq<Word>, start: nat, i: nat) {
    start <= i && Unset(d, i) && forall j: nat | start <= j < i :: !Unset(d, j)
  }

  /** BSF. */
  method Bsf(w: Word) returns (i: nat)
    requires !IsZero(w)
    ensures i < WORD_BITS && w[i] && forall j | 0 <= j < i :: !w[j]
  {
    i := 0;
    while i < WORD_BITS && !w[i]
      invariant i <= WORD_BITS && forall j | 0 <= j < i :: !w[j]
    {
      i := i + 1;
    }
  }

  /** How bitmap_set_next_bit ends: with a bit, with BM_NPOS, in the int3 of assert_bounds, or reading past the
      array. */
  datatype Outcome = Found(index: nat) | NPos | Trap | Overrun

  /** The words below k have no unset bit at or above start, word k has one: the least is where BSF says. */
  lemma LeastInWord(d: seq<Word>, start: nat, k: nat, low: nat, w: Word, b: nat)
    requires k < |d| && start / WORD_BITS <= k && low == (if k == start / WORD_BITS then start % WORD_BITS else 0)
    requires w == And(d[k], HighBits(low)) && b < WORD_BITS && w[b] && forall j | 0 <= j < b :: !w[j]
    requires forall j: nat | start <= j < WORD_BITS * k :: !Unset(d, j)
    ensures Least(d, start, WORD_BITS * k + b)
  {
    var i := WORD_BITS * k + b;
    assert i / WORD_BITS == k && i % WORD_BITS == b;
    forall j: nat | start <= j < i ensures !Unset(d, j) {
      if j >= WORD_BITS * k {
        assert j / WORD_BITS == k && j % WORD_BITS == j - WORD_BITS * k;
        assert !w[j % WORD_BITS];
      }
    }
  }

  lemma NoneInWord(d: seq<Word>, start: nat, k: nat, low: nat)
    requires k < |d| && start / WORD_BITS <= k && low == (if k == start / WORD_BITS then start % WORD_BITS else 0)
    requires IsZero(And(d[k], HighBits(low)))
    requires forall j: nat | start <= j < WORD_BITS * k :: !Unset(d, j)
    ensures forall j: nat | start <= j < WORD_BITS * (k + 1) :: !Unset(d, j)
  {
    var w := And(d[k], HighBits(low));
    forall j: nat | start <= j < WORD_BITS * (k + 1) ensures !Unset(d, j) {
      if j >= WORD_BITS * k {
        assert j / WORD_BITS == k && j % WORD_BITS == j - WORD_BITS * k;
        assert !w[j % WORD_BITS];
      }
    }
  }

  /** What src/bitmap.h promises of bitmap_set_next_bit. */
  ghost predicate Promised(d: seq<Word>, size: nat, start: nat, o: Outcome) {
    if exists i: nat ::
      i < size && Least(d, start, i) then o.Found? && o.index < size && Least(d, start, o.index) else o == NPos
  }

  /** The bits at or above start, up to size, hold an unset one. */
  ghost predicate SomeUnset(d: seq<Word>, start: nat, size: nat) {
    exists i: nat :: start <= i < size && Unset(d, i)
  }

  lemma {:induction false} LeastExists(d: seq<Word>, start: nat, i: nat) returns (j: nat)
    requires start <= i && Unset(d, i)
    ensures j <= i && Least(d, start, j)
    decreases i - start
  {
    if Unset(d, start) { j := start; } else { j := LeastExists(d, start + 1, i); }
  }

  /** What the search really does. */
  ghost predicate Behaves(d: seq<Word>, size: nat, free: nat, start: nat, o: Outcome) {
    match o
    case NPos => start >= size || free == 0
    case Found(i) => start < size && free > 0 && i < size && Least(d, start, i)
    case Trap => start < size && free > 0 && exists i: nat :: i >= size && Least(d, start, i)
    case Overrun => start < size && free > 0 && forall i: nat | start <= i :: !Unset(d, i)
  }

  /** The promise is kept exactly when the bitmap is full, or start is out of bounds, or an unset bit is there to be
      found. */
  lemma PromiseIff(d: seq<Word>, size: nat, free: nat, start: nat, o: Outcome)
    requires Behaves(d, size, free, start, o) && free == Count(d, size)
    ensures Promised(d, size, start, o) <==> free == 0 || start >= size || SomeUnset(d, start, size)
  {
    CountNone(d, size);
    if SomeUnset(d, start, size) {
      var i: nat :| start <= i < size && Unset(d, i);
      var j := LeastExists(d, start, i);
      assert j < size && Least(d, start, j);
    }
    if k: nat :| k < size && Least(d, start, k) { assert SomeUnset(d, start, size); }
  }

  /** A bitmap with bit 0 alone unset: looking from bit 1 runs past the array instead of returning BM_NPOS. */
  lemma OverrunExample()
    ensures var d: seq<Word> := [seq(WORD_BITS, i => i == 0)];
      Count(d, WORD_BITS) == 1 && Behaves(d, WORD_BITS, 1, 1, Overrun) && !Promised(d, WORD_BITS, 1, Overrun)
  {
    var d: seq<Word> := [seq(WORD_BITS, i => i == 0)];
    var z: seq<Word> := [seq(WORD_BITS, _ => false)];
    CountNone(z, WORD_BITS);
    CountWith(z, 0, true, WORD_BITS);
    forall j: nat ensures Unset(With(z, 0, true), j) == Unset(d, j) { }
    CountSame(With(z, 0, true), d, WORD_BITS);
  }

  class Bitmap {
    var size: nat
    var free: nat
    var data: array<Word>

    ghost predicate Valid()
      reads this, data
    {
      data.Length == WordCount(size) && free == Count(data[..], size)
    }

    /** bitmap_init with bitmap_reset or bitmap_set_all. */
    constructor (n: nat, d: array<Word>, value: bool)
      requires d.Length == WordCount(n)
      modifies d
      ensures Valid() && size == n && data == d
      ensures forall i: nat | i < WORD_BITS * d.Length :: Unset(data[..], i) <==> !value
    {
      size, data := n, d;
      free := if value then 0 else n;
      new;
      forall k | 0 <= k < d.Length { d[k] := seq(WORD_BITS, _ => !value); }
      forall i: nat | i < WORD_BITS * d.Length ensures Unset(data[..], i) <==> !value { }
      Bounds(n);
      if value { CountNone(data[..], n); } else { CountAll(data[..], n); }
    }

    /** bitmap_set; false is the int3. */
    method Set(i: nat) returns (ok: bool)
      requires Valid()
      modifies this`free, data
      ensures Valid() && (ok <==> i < size)
      ensures data[..] == if ok then With(old(data[..]), i, false) else old(data[..])
      ensures free == old(free) - if ok && Unset(old(data[..]), i) then 1 else 0
    {
      if i >= size { return false; }
      Bounds(size);
      ghost var d := data[..];
      CountWith(d, i, false, size);
      var was := data[i / WORD_BITS][i % WORD_BITS];
      data[i / WORD_BITS] := data[i / WORD_BITS][i % WORD_BITS := false];
      assert data[..] == With(d, i, false);
      if was { free := free - 1; }
      ok := true;
    }

    /** bitmap_unset. */
    method Clear(i: nat) returns (ok: bool)
      requires Valid()
      modifies this`free, data
      ensures Valid() && (ok <==> i < size)
      ensures data[..] == if ok then With(old(data[..]), i, true) else old(data[..])
      ensures free == old(free) + if ok && !Unset(old(data[..]), i) then 1 else 0
    {
      if i >= size { return false; }
      Bounds(size);
      ghost var d := data[..];
      CountWith(d, i, true, size);
      var was := data[i / WORD_BITS][i % WORD_BITS];
      data[i / WORD_BITS] := data[i / WORD_BITS][i % WORD_BITS := true];
      assert data[..] == With(d, i, true);
      if !was { free := free + 1; }
      ok := true;
    }

    /** bitmap_get_bit. */
    method Get(i: nat) returns (ok: bool, bit: bool)
      requires Valid()
      ensures ok <==> i < size
      ensures ok ==> bit == !Unset(data[..], i)
    {
      if i >= size { return false, false; }
      Bounds(size);
      ok, bit := true, !data[i / WORD_BITS][i % WORD_BITS];
    }

    /** The scan of bitmap_set_next_bit. */
    method Search(start: nat) returns (found: bool, i: nat)
      requires Valid()
      ensures found ==> Least(data[..], start, i)
      ensures !found ==> forall j: nat | start <= j :: !Unset(data[..], j)
    {
      var k, low := start / WORD_BITS, start % WORD_BITS;
      while k < data.Length
        invariant k >= start / WORD_BITS && low == if k == start / WORD_BITS then start % WORD_BITS else 0
        invariant forall j: nat | start <= j < WORD_BITS * k :: !Unset(data[..], j)
      {
        var w := And(data[k], HighBits(low));
        if !IsZero(w) {
          var b := Bsf(w);
          LeastInWord(data[..], start, k, low, w, b);
          return true, WORD_BITS * k + b;
        }
        NoneInWord(data[..], start, k, low);
        k, low := k + 1, 0;
      }
      return false, 0;
    }

    /** bitmap_set_next_bit. */
    method SetNext(start: nat) returns (o: Outcome)
      requires Valid()
      modifies this`free, data
      ensures Valid() && Behaves(old(data[..]), size, old(free), start, o)
      ensures o.Found? ==> data[..] == With(old(data[..]), o.index, false) && free == old(free) - 1
      ensures !o.Found? ==> data[..] == old(data[..]) && free == old(free)
    {
      if start >= size || free == 0 { return NPos; }
      var found, i := Search(start);
      if !found { return Overrun; }
      var ok := Set(i);
      o := if ok then Found(i) else Trap;
    }
  }

  lemma Bounds(size: nat)
    ensures size <= WORD_BITS * WordCount(size)
  {
  }
}
