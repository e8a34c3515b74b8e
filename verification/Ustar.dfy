/**
 The USTAR filesystem (src/ustar.c): headers of 512 bytes, each followed by its
 file's data. The layout is the "ustar Interchange Format" of IEEE Std 1003.1.
 */
module Ustar {
  import opened Memory
  import opened Disk
  import opened Archive

  const NAME: nat := 0
  const FILESIZE: nat := 124
  const TYPE: nat := 156
  const PREFIX: nat := 345
  const SLASH: Byte := 47
  const ZERO: Byte := 48
  const EIGHT: Byte := 56

  // ---------- a header ----------

  /** Where the NUL of the string at i is, or the end of the header; strlen does not stop at the end of a field. */
  function StringEnd(h: seq<Byte>, i: nat): (r: nat)
    requires i <= |h|
    ensures i <= r <= |h|
    decreases |h| - i
  {
    if i == |h| || h[i] == 0 then i else StringEnd(h, i + 1)
  }

  /** The string at i, without its NUL. */
  function CString(h: seq<Byte>, i: nat): seq<Byte>
    requires i <= |h|
  {
    h[i..StringEnd(h, i)]
  }

  lemma {:induction false} StringEndIs(h: seq<Byte>, i: nat)
    requires i <= |h|
    ensures (forall j | i <= j < StringEnd(h, i) :: h[j] != 0) && (StringEnd(h, i) < |h| ==> h[StringEnd(h, i)] == 0)
    decreases |h| - i
  {
    if i < |h| && h[i] != 0 { StringEndIs(h, i + 1); }
  }

  /** s is the string at i: the bytes up to the first NUL. */
  predicate IsString(h: seq<Byte>, i: nat, s: seq<Byte>) {
    i + |s| < |h| && h[i..i + |s|] == s && h[i + |s|] == 0 && 0 !in s
  }

  /** The name of the header h, with its prefix if there is one, is path. */
  ghost predicate Named(h: seq<Byte>, path: seq<Byte>) {
    exists prefix, name {:trigger IsString(h, PREFIX, prefix), IsString(h, NAME, name)} ::
      IsString(h, PREFIX, prefix) && IsString(h, NAME, name)
      && path == if prefix == [] then name else prefix + [SLASH] + name
  }

  lemma CStringIs(h: seq<Byte>, i: nat)
    requires i <= |h| && i + |CString(h, i)| < |h|
    ensures IsString(h, i, CString(h, i))
  {
    StringEndIs(h, i);
  }

  lemma OneString(h: seq<Byte>, i: nat, s: seq<Byte>, s': seq<Byte>)
    requires IsString(h, i, s) && IsString(h, i, s')
    ensures s == s'
  {
    assert forall k | 0 <= k < |s| :: h[i + k] == s[k] != 0;
    assert forall k | 0 <= k < |s'| :: h[i + k] == s'[k] != 0;
  }

  /** The name of an entry is what the bytes of its header say, and nothing else. */
  lemma NamedIff(h: seq<Byte>, path: seq<Byte>)
    requires Parse(h).Entry?
    ensures Named(h, path) <==> Parse(h).name == path
  {
    CStringIs(h, PREFIX);
    CStringIs(h, NAME);
    if Named(h, path) {
      var prefix, name :| IsString(h, PREFIX, prefix) && IsString(h, NAME, name)
        && path == if prefix == [] then name else prefix + [SLASH] + name;
      OneString(h, PREFIX, prefix, CString(h, PREFIX));
      OneString(h, NAME, name, CString(h, NAME));
    }
  }

  /** The ASSERT of octal_string_to_u64 lets the digit 8 through. */
  predicate IsOctal(s: seq<Byte>) { forall i | 0 <= i < |s| :: ZERO <= s[i] <= EIGHT }

  function Octal(s: seq<Byte>): nat
    requires IsOctal(s)
  {
    if s == [] then 0 else Octal(s[..|s| - 1]) * 8 + (s[|s| - 1] - ZERO)
  }

  function Power8(n: nat): nat { if n == 0 then 1 else 8 * Power8(n - 1) }

  /** The sum of the digits times their powers of 8. */
  function Positional(s: seq<Byte>): nat
    requires IsOctal(s)
  {
    if s == [] then 0 else (s[0] - ZERO) * Power8(|s| - 1) + Positional(s[1..])
  }

  lemma {:induction false} OctalIsPositional(s: seq<Byte>)
    requires IsOctal(s)
    ensures Octal(s) == Positional(s)
  {
    if s != [] { OctalFront(s); OctalIsPositional(s[1..]); }
  }

  lemma {:induction false} OctalFront(s: seq<Byte>)
    requires IsOctal(s) && s != []
    ensures Octal(s) == (s[0] - ZERO) * Power8(|s| - 1) + Octal(s[1..])
  {
    var n := |s| - 1;
    if n == 0 {
      assert s[..0] == [] && s[1..] == [];
    } else {
      var front := s[..n];
      OctalFront(front);
      assert s[1..][..n - 1] == front[1..];
      assert Power8(n) == 8 * Power8(n - 1);
      assert (s[0] - ZERO) * Power8(n) == 8 * ((s[0] - ZERO) * Power8(n - 1));
    }
  }

  /** n written with w octal digits, as tar writes a size. */
  function OctalText(n: nat, w: nat): (r: seq<Byte>)
    requires n < Power8(w)
    ensures |r| == w
  {
    if w == 0 then [] else OctalText(n / 8, w - 1) + [ZERO + n % 8]
  }

  /** Digit i of the text is the digit of 8 to the power w - 1 - i. */
  lemma {:induction false} DigitAt(n: nat, w: nat, i: nat)
    requires n < Power8(w) && i < w
    ensures Power8(w - 1 - i) > 0 && OctalText(n, w)[i] == ZERO + n / Power8(w - 1 - i) % 8
  {
    if i < w - 1 {
      DigitAt(n / 8, w - 1, i);
      DivTwice(n, Power8(w - 2 - i));
    }
  }

  lemma DivTwice(n: nat, p: nat)
    requires p > 0
    ensures n / 8 / p == n / (8 * p)
  {
    var q, r := n / 8 / p, n / 8 % p;
    assert n == 8 * p * q + (8 * r + n % 8);
    assert 8 * r + n % 8 < 8 * p;
    QuotientIs(n, 8 * p, q, 8 * r + n % 8);
  }

  lemma {:induction false} Gap(d: nat, a: nat, b: nat)
    ensures a < b ==> d * a + d <= d * b
  {
    if a + 1 < b { Gap(d, a, b - 1); }
    if a < b { assert d * b == d * (b - 1) + d; }
  }

  lemma QuotientIs(n: nat, d: nat, q: nat, r: nat)
    requires n == d * q + r && r < d
    ensures n / d == q
  {
    assert n == d * (n / d) + n % d;
    Gap(d, q, n / d);
    Gap(d, n / d, q);
  }

  /** What was written in octal is read back. */
  lemma {:induction false} OctalRoundTrip(n: nat, w: nat)
    requires n < Power8(w)
    ensures IsOctal(OctalText(n, w)) && Octal(OctalText(n, w)) == n
  {
    if w > 0 {
      OctalRoundTrip(n / 8, w - 1);
      assert OctalText(n, w)[..w - 1] == OctalText(n / 8, w - 1);
    }
  }

  /** The strings of the header must end inside it, and its size be a number the code can work with. */
  function Parse(h: seq<Byte>): Entry {
    if |h| != BLOCK then Malformed else
    var prefix, name, size := CString(h, PREFIX), CString(h, NAME), CString(h, FILESIZE);
    if |prefix| < BLOCK - PREFIX && |name| < BLOCK && |size| <= 12 && IsOctal(size) && Octal(size) < WORD - BLOCK then
      Entry(if prefix == [] then name else prefix + [SLASH] + name, Octal(size), h[TYPE] == ZERO || h[TYPE] == 0)
    else Malformed
  }

  // ---------- the code ----------

  /** octal_string_to_u64; false is the ASSERT. */
  method OctalToU64(s: seq<Byte>) returns (ok: bool, v: nat)
    requires |s| < 256
    ensures ok <==> IsOctal(s)
    ensures ok ==> v == Octal(s) % OFF_LIMIT == Positional(s) % OFF_LIMIT
  {
    v := 0;
    var i := 0;
    while i < |s|
      invariant i <= |s| && IsOctal(s[..i]) && v == Octal(s[..i]) % OFF_LIMIT
    {
      if s[i] < ZERO || s[i] > EIGHT { return false, 0; }
      assert s[..i + 1][..i] == s[..i];
      OctalStep(Octal(s[..i]), v, s[i] - ZERO);
      v := (v * 8 + (s[i] - ZERO)) % OFF_LIMIT;
      i := i + 1;
    }
    assert s[..|s|] == s;
    OctalIsPositional(s);
    ok := true;
  }

  lemma OctalStep(a: nat, v: nat, d: nat)
    requires v == a % OFF_LIMIT
    ensures (v * 8 + d) % OFF_LIMIT == (a * 8 + d) % OFF_LIMIT
  {
    var q := a / OFF_LIMIT;
    assert a * 8 + d == (v * 8 + d) + OFF_LIMIT * (8 * q);
  }

  /** read_header. */
  method ReadHeader(disk: MemDisk, offset: nat) returns (ok: bool, h: seq<Byte>)
    requires disk.Valid() && offset < OFF_LIMIT
    ensures ok <==> offset + BLOCK <= disk.data.Length
    ensures ok ==> h == disk.data[offset..offset + BLOCK]
  {
    var buf := new Byte[BLOCK];
    var n := disk.Read(offset, buf, BLOCK);
    ok, h := n == BLOCK, buf[..];
  }

  /** p reads the header h as the code does. */
  ghost predicate Agrees(p: Parser, h: seq<Byte>) { p(h) == Parse(h) }

  /** find_file. */
  method FindFile(disk: MemDisk, path: seq<Byte>) returns (r: Option)
    requires disk.Valid() && WellFormed(Parse, disk.data[..], 0)
    ensures r == Find(Parse, disk.data[..], 0, path)
    ensures forall y | y in Walk(Parse, disk.data[..], 0) ::
      && y + BLOCK <= disk.data.Length
      && (Named(disk.data[y..y + BLOCK], path) ==> r.Some? && r.offset <= y)
      && (r == Some(y) ==> Named(disk.data[y..y + BLOCK], path))
    ensures r.Some? ==> r.offset in Walk(Parse, disk.data[..], 0)
  {
    r := Search(disk, path, Parse);
    ghost var img := disk.data[..];
    FindIn(Parse, img, 0, path);
    forall y | y in Walk(Parse, img, 0)
      ensures y + BLOCK <= |img| && (Named(img[y..y + BLOCK], path) ==> r.Some? && r.offset <= y)
        && (r == Some(y) ==> Named(img[y..y + BLOCK], path)) {
      FindFirst(Parse, img, 0, path, y);
      NamedIff(img[y..y + BLOCK], path);
    }
  }

  method Search(disk: MemDisk, path: seq<Byte>, ghost p: Parser) returns (r: Option)
    requires disk.Valid() && WellFormed(p, disk.data[..], 0) && forall h {:trigger Agrees(p, h)} :: Agrees(p, h)
    ensures r == Find(p, disk.data[..], 0, path)
  {
    ghost var img := disk.data[..];
    var offset := 0;
    var ok, h := ReadHeader(disk, offset);
    while ok
      invariant offset < WORD && WellFormed(p, img, offset) && Find(p, img, offset, path) == Find(p, img, 0, path)
      invariant disk.data[..] == img
      invariant ok <==> offset + BLOCK <= |img|
      invariant ok ==> h == img[offset..offset + BLOCK]
      decreases |img| - offset
    {
      FindStep(p, img, offset, path);
      assert Agrees(p, h);
      var full := JoinName(h, p);
      if full == path { return Some(offset); }
      offset := Skip(h, offset, p);
      ok, h := ReadHeader(disk, offset);
    }
    r := None;
  }

  /** The full name find_file builds. */
  method JoinName(h: seq<Byte>, ghost p: Parser) returns (full: seq<Byte>)
    requires |h| == BLOCK && p(h).Entry? && Agrees(p, h)
    ensures full == p(h).name
  {
    var prefix, name := CString(h, PREFIX), CString(h, NAME);
    full := name;
    if |prefix| > 0 { full := prefix + [SLASH] + name; }
  }

  /** Past a header and the blocks of size bytes, on 32 bits. */
  function AddBlocks(offset: nat, size: nat): (r: nat)
    ensures offset + BLOCK + RoundUp(size) < WORD ==> r == offset + BLOCK + RoundUp(size)
  {
    ((offset + BLOCK) % WORD + (size / BLOCK + if size % BLOCK != 0 then 1 else 0) * BLOCK) % WORD
  }

  /** The step of find_file to the next header. */
  method Skip(h: seq<Byte>, offset: nat, ghost p: Parser) returns (next: nat)
    requires |h| == BLOCK && p(h).Entry? && Agrees(p, h) && offset + Stride(p(h)) < WORD
    ensures next == offset + Stride(p(h))
  {
    var size := 0;
    if h[TYPE] == ZERO || h[TYPE] == 0 {
      var ok;
      ok, size := OctalToU64(CString(h, FILESIZE));
      assert ok && size == Parse(h).size;
    }
    next := AddBlocks(offset, size);
  }

  /** An open file: struct ustar_file_private_data. */
  datatype File = File(header: nat, e: Entry)

  /** The bytes an access of len bytes at offset asks for inside a file of that size; what is left of the file is cut to
      32 bits. */
  function FileReach(size: nat, offset: nat, len: nat): nat {
    if offset >= size then 0 else Min((size - offset) % WORD, len)
  }

  /** Inside a file the access asks for the bytes that are there, up to len, if and only if less than 4 GiB are left or
      the cut leaves enough. */
  lemma FileReachIff(size: nat, offset: nat, len: nat)
    requires len < WORD
    ensures FileReach(size, offset, len) == (if offset >= size then 0 else Min(size - offset, len)) <==>
      offset >= size || size - offset < WORD || len <= (size - offset) % WORD
  {
    if offset < size {
      var left := size - offset;
      assert left == left / WORD * WORD + left % WORD;
    }
  }

  /** A file of 4 GiB seems empty. */
  lemma FourGigabytes(len: nat)
    ensures FileReach(WORD, 0, len) == 0
  {
  }

  /** Where byte `offset` of a file is on the disk, on 64 bits. */
  function FilePosition(header: nat, offset: nat): nat { (header + BLOCK + offset) % OFF_LIMIT }

  /** ustar_read. */
  method ReadFile(disk: MemDisk, f: File, offset: nat, buf: array<Byte>, len: nat) returns (n: nat)
    requires disk.Valid() && f.header < WORD && f.e.Entry? && f.e.size < OFF_LIMIT && offset < OFF_LIMIT
    requires len <= buf.Length && len < WORD && buf != disk.data
    modifies buf
    ensures var at := FilePosition(f.header, offset);
      && n == Reach(disk.data.Length, at, FileReach(f.e.size, offset, len))
      && (n > 0 ==> at + n <= disk.data.Length && buf[..n] == disk.data[at..at + n])
    ensures forall i | n <= i < buf.Length :: buf[i] == old(buf[i])
  {
    if offset >= f.e.size { return 0; }
    n := disk.Read(FilePosition(f.header, offset), buf, FileReach(f.e.size, offset, len));
  }

  /** The entry is one of a well-formed archive that the walk skips over. */
  ghost predicate Skipped(img: seq<Byte>, f: File) {
    && WellFormed(Parse, img, 0) && f.header in Walk(Parse, img, 0) && f.e == EntryAt(Parse, img, f.header)
    && f.e.Entry? && (f.e.file || f.e.size == 0)
  }

  lemma PositionIs(header: nat, offset: nat)
    requires header < WORD && offset < WORD
    ensures FilePosition(header, offset) == header + BLOCK + offset
  {
  }

  /** ustar_write. For an entry the walk skips over it touches nothing but the file's data. */
  method WriteFile(disk: MemDisk, f: File, offset: nat, buf: seq<Byte>, len: nat) returns (n: nat)
    requires disk.Valid() && f.header < WORD && f.e.Entry? && f.e.size < OFF_LIMIT && offset < OFF_LIMIT
    requires len <= |buf| && len < WORD
    modifies disk.data
    ensures var at := FilePosition(f.header, offset);
      && n == (if disk.readOnly then 0 else Reach(disk.data.Length, at, FileReach(f.e.size, offset, len)))
      && (n > 0 ==> at + n <= disk.data.Length && disk.data[..] == Splice(old(disk.data[..]), at, buf[..n]))
    ensures n == 0 ==> disk.data[..] == old(disk.data[..])
    ensures Skipped(old(disk.data[..]), f) ==> Intact(Parse, old(disk.data[..]), disk.data[..], f.header)
  {
    ghost var img := disk.data[..];
    n := 0;
    if offset < f.e.size { n := disk.Write(FilePosition(f.header, offset), buf, FileReach(f.e.size, offset, len)); }
    if Skipped(img, f) {
      if n == 0 {
        NothingKeeps(Parse, img, f.header, f.e);
      } else {
        WrittenInside(img, f, offset, len, n);
        SpliceKeeps(Parse, img, f.header, f.e, offset, buf[..n]);
      }
    }
  }

  lemma WrittenInside(img: seq<Byte>, f: File, offset: nat, len: nat, n: nat)
    requires Skipped(img, f) && f.header < WORD && offset < f.e.size
    requires 0 < n <= FileReach(f.e.size, offset, len)
    ensures FilePosition(f.header, offset) == f.header + BLOCK + offset && offset + n <= f.e.size
  {
    PositionIs(f.header, offset);
  }

  // ---------- two files ----------

  lemma {:induction false} EndsAt(h: seq<Byte>, i: nat, s: seq<Byte>)
    requires IsString(h, i, s)
    ensures CString(h, i) == s
    decreases |s|
  {
    if s != [] {
      assert h[i] == h[i..i + |s|][0];
      assert h[i + 1..i + 1 + |s[1..]|] == h[i..i + |s|][1..];
      EndsAt(h, i + 1, s[1..]);
      assert h[i..StringEnd(h, i)] == [h[i]] + h[i + 1..StringEnd(h, i + 1)];
    }
  }

  /** The file "a" of 512 bytes, whose size field is the text "00000001000", and the empty file "d/b", whose prefix and
      name are in fields of their own. */
  function TwoFiles(): (img: seq<Byte>)
    ensures |img| == 1536
  {
    seq(1536, i =>
      if i == 0 then 97 else if i == 131 then 49 else if 124 <= i < 135 || i == 156 then 48
      else if i == 1024 then 98 else if i == 1369 then 100 else if i == 1180 then 48 else 0)
  }

  lemma SizeOfFirst(h: seq<Byte>)
    requires h == TwoFiles()[..512]
    ensures var size := CString(h, 124); |size| == 11 && IsOctal(size) && Octal(size) == 512
  {
    var size: seq<Byte> := [48, 48, 48, 48, 48, 48, 48, 49, 48, 48, 48];
    forall k | 0 <= k < 11 ensures h[124 + k] == size[k] { assert h[124 + k] == TwoFiles()[124 + k]; }
    assert h[124..135] == size;
    EndsAt(h, 124, size);
    SizeText(size);
  }

  lemma {:induction false} ZerosAreZero(s: seq<Byte>)
    requires forall k | 0 <= k < |s| :: s[k] == 48
    ensures IsOctal(s) && Octal(s) == 0
  {
    if s != [] { ZerosAreZero(s[..|s| - 1]); }
  }

  lemma OneMore(s: seq<Byte>, n: nat)
    requires IsOctal(s) && 0 < n <= |s|
    ensures Octal(s[..n]) == Octal(s[..n - 1]) * 8 + (s[n - 1] - ZERO)
  {
    assert s[..n][..n - 1] == s[..n - 1];
  }

  lemma SizeText(size: seq<Byte>)
    requires size == [48, 48, 48, 48, 48, 48, 48, 49, 48, 48, 48]
    ensures IsOctal(size) && Octal(size) == 512
  {
    ZerosAreZero(size[..7]);
    OneMore(size, 8);
    OneMore(size, 9);
    OneMore(size, 10);
    OneMore(size, 11);
    assert size[..11] == size;
  }

  lemma FirstOfTwo(h: seq<Byte>)
    requires h == TwoFiles()[..512]
    ensures Parse(h) == Entry([97], 512, true)
  {
    assert h[0] == TwoFiles()[0] && h[0..1] == [97];
    EndsAt(h, 0, [97]);
    EndsAt(h, 345, []);
    SizeOfFirst(h);
  }

  lemma SecondOfTwo(h: seq<Byte>)
    requires h == TwoFiles()[1024..1536]
    ensures Parse(h) == Entry([100, 47, 98], 0, true)
  {
    assert h[0] == TwoFiles()[1024] && h[345] == TwoFiles()[1369];
    assert h[0..1] == [98] && h[345..346] == [100];
    EndsAt(h, 0, [98]);
    EndsAt(h, 345, [100]);
    EndsAt(h, 124, []);
    assert [100] + [SLASH] + [98] == [100, 47, 98];
  }

  lemma TwoFilesWalk()
    ensures WellFormed(Parse, TwoFiles(), 0) && Find(Parse, TwoFiles(), 0, [100, 47, 98]) == Some(1024)
  {
    var img := TwoFiles();
    assert img[0..512] == img[..512];
    FirstOfTwo(img[..512]);
    SecondOfTwo(img[1024..1536]);
    assert EntryAt(Parse, img, 0) == Entry([97], 512, true)
      && EntryAt(Parse, img, 1024) == Entry([100, 47, 98], 0, true);
    assert WellFormed(Parse, img, 1536);
    assert WellFormed(Parse, img, 1024) && Find(Parse, img, 1024, [100, 47, 98]) == Some(1024);
  }

  /** find_file steps over the data of the first file and finds the second. */
  method FindsSecond() returns (r: Option)
    ensures r == Some(1024)
  {
    var img := TwoFiles();
    TwoFilesWalk();
    var data := new Byte[1536](i requires 0 <= i < 1536 => img[i]);
    assert data[..] == img;
    var disk := new MemDisk(data, true);
    r := FindFile(disk, [100, 47, 98]);
  }

  // ---------- a directory with a size ----------

  /** Two headers: a directory of size 1, and an empty file. */
  function SizedDirectory(): (img: seq<Byte>)
    ensures |img| == 1024 && img[124] == 49 && img[156] == 53
    ensures forall i | 0 <= i < 1024 && i != 124 && i != 156 :: img[i] == 0
  {
    seq(1024, i => if i == 124 then 49 else if i == 156 then 53 else 0)
  }

  lemma ParseBlank(h: seq<Byte>)
    requires |h| == BLOCK && forall i | 0 <= i < BLOCK :: h[i] == 0
    ensures Parse(h) == Entry([], 0, true)
  {
  }

  lemma ParseDirectory(h: seq<Byte>)
    requires |h| == BLOCK && h[124] == 49 && h[156] == 53
    requires forall i | 0 <= i < BLOCK && i != 124 && i != 156 :: h[i] == 0
    ensures Parse(h) == Entry([], 1, false)
  {
    assert h[124..125] == [49];
    EndsAt(h, 124, [49]);
    EndsAt(h, 0, []);
    EndsAt(h, 345, []);
    assert [49][..0] == [];
    assert Octal([49]) == 1;
  }

  lemma SizedDirectoryWalk()
    ensures var img := SizedDirectory();
      && WellFormed(Parse, img, 0) && Walk(Parse, img, 0) == [0, BLOCK]
      && EntryAt(Parse, img, 0) == Entry([], 1, false) && EntryAt(Parse, img, BLOCK) == Entry([], 0, true)
  {
    var img := SizedDirectory();
    ParseDirectory(img[0..BLOCK]);
    ParseBlank(img[BLOCK..2 * BLOCK]);
    assert WellFormed(Parse, img, 2 * BLOCK) && Walk(Parse, img, 2 * BLOCK) == [];
    assert WellFormed(Parse, img, BLOCK) && Walk(Parse, img, BLOCK) == [BLOCK];
  }

  /** Its archive is well-formed, and a write to it is not harmless. */
  lemma SizedDirectoryHarms()
    ensures WellFormed(Parse, SizedDirectory(), 0) && !Harmless(Parse, SizedDirectory(), 0)
  {
    SizedDirectoryWalk();
    assert 0 in Walk(Parse, SizedDirectory(), 0);
    OtherTypesHarm(Parse, SizedDirectory(), 0);
  }

  /** One byte written to the directory is the first byte of the next header's name. */
  method OverwritesHeader() returns (n: nat, disk: MemDisk)
    ensures fresh(disk) && n == 1 && disk.data[..] == SizedDirectory()[BLOCK := 65]
  {
    var img := SizedDirectory();
    SizedDirectoryWalk();
    var data := new Byte[2 * BLOCK](i requires 0 <= i < 2 * BLOCK => img[i]);
    assert data[..] == img;
    disk := new MemDisk(data, false);
    n := WriteFile(disk, File(0, Entry([], 1, false)), 0, [65], 1);
    assert [65][..1] == [65];
  }
}
