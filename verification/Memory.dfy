/** Byte-addressed memory, with little-endian 32-bit words and memzero (src/memory.c). */
module Memory {
  type Byte = b: nat | b < 256 witness 0

  const WORD: nat := 0x1_0000_0000

  type Word = w: nat | w < WORD witness 0

  function Pow256(n: nat): (r: nat)
    ensures r > 0
  {
    if n == 0 then 1 else 256 * Pow256(n - 1)
  }

  /** The bytes from a to e, least significant first. */
  function ReadLe(m: seq<Byte>, a: nat, e: nat): (r: nat)
    requires a <= e <= |m|
    ensures r < Pow256(e - a)
    decreases e - a
  {
    if a == e then 0 else m[a] + 256 * ReadLe(m, a + 1, e)
  }

  function WriteLe(m: seq<Byte>, a: nat, e: nat, w: nat): (r: seq<Byte>)
    requires a <= e <= |m|
    ensures |r| == |m|
    ensures forall b {:trigger r[b]} | 0 <= b < |m| && !(a <= b < e) :: r[b] == m[b]
    decreases e - a
  {
    if a == e then m else WriteLe(m[a := w % 256], a + 1, e, w / 256)
  }

  lemma {:induction false} ReadLeSame(m: seq<Byte>, m': seq<Byte>, a: nat, e: nat)
    requires a <= e <= |m| == |m'| && forall b | a <= b < e :: m'[b] == m[b]
    ensures ReadLe(m', a, e) == ReadLe(m, a, e)
    decreases e - a
  {
    if a < e { ReadLeSame(m, m', a + 1, e); }
  }

  lemma {:induction false} ReadWriteLe(m: seq<Byte>, a: nat, e: nat, w: nat)
    requires a <= e <= |m| && w < Pow256(e - a)
    ensures ReadLe(WriteLe(m, a, e, w), a, e) == w
    decreases e - a
  {
    if a < e { ReadWriteLe(m[a := w % 256], a + 1, e, w / 256); }
  }

  lemma WordPow(a: nat)
    ensures Pow256(a + 4 - a) == WORD
  {
    assert Pow256(4) == WORD;
  }

  function Read(m: seq<Byte>, a: nat): (r: Word)
    requires a + 4 <= |m|
  {
    WordPow(a);
    ReadLe(m, a, a + 4)
  }

  /** Writing a word: it reads back, and every byte and every word elsewhere is unchanged. */
  function Write(m: seq<Byte>, a: nat, w: Word): (r: seq<Byte>)
    requires a + 4 <= |m|
    ensures |r| == |m| && Read(r, a) == w
    ensures forall b {:trigger r[b]} | 0 <= b < |m| && !(a <= b < a + 4) :: r[b] == m[b]
    ensures forall x: nat {:trigger Read(r, x)} | x + 4 <= |m| && (x + 4 <= a || a + 4 <= x) :: Read(r, x) == Read(m, x)
  {
    WordPow(a);
    ReadWriteLe(m, a, a + 4, w);
    var r := WriteLe(m, a, a + 4, w);
    assert forall x: nat | x + 4 <= |m| && (x + 4 <= a || a + 4 <= x) :: Read(r, x) == Read(m, x) by {
      forall x: nat | x + 4 <= |m| && (x + 4 <= a || a + 4 <= x)
        ensures Read(r, x) == Read(m, x) { ReadLeSame(m, r, x, x + 4); }
    }
    r
  }

  /** memzero. */
  function Zeroed(m: seq<Byte>, a: nat, n: nat): (r: seq<Byte>)
    requires a + n <= |m|
    ensures |r| == |m|
    ensures forall b | a <= b < a + n :: r[b] == 0
    ensures forall b {:trigger r[b]} | 0 <= b < |m| && !(a <= b < a + n) :: r[b] == m[b]
    ensures forall x: nat {:trigger Read(r, x)} | x + 4 <= |m| && (x + 4 <= a || a + n <= x) :: Read(r, x) == Read(m, x)
  {
    var r := m[..a] + seq(n, _ => 0) + m[a + n..];
    assert forall x: nat | x + 4 <= |m| && (x + 4 <= a || a + n <= x) :: Read(r, x) == Read(m, x) by {
      forall x: nat | x + 4 <= |m| && (x + 4 <= a || a + n <= x)
        ensures Read(r, x) == Read(m, x) { ReadLeSame(m, r, x, x + 4); }
    }
    r
  }
}
