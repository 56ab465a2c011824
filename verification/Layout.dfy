/** On-disk constants and byte codecs of the file system (xv6fs/src/defs.h).

    A block is BSIZE bytes.  The same bytes are read as file data, as an array of
    little-endian block numbers, as a run of allocation bits, as 64-byte inodes or
    as 64-byte directory entries, so every view here is a function of the bytes. */
module Layout {

  const BSIZE: nat := 1024
  const NDIRECT: nat := 11
  const NINDIRECT: nat := 256    // BSIZE / sizeof(uint)
  const NADDR: nat := 13         // NDIRECT direct, one indirect, one double-indirect
  const MAXFILE: nat := 65803    // NDIRECT + NINDIRECT + NINDIRECT * NINDIRECT
  const MAXBYTES: nat := 67382272  // MAXFILE * BSIZE
  const RECSIZE: nat := 64       // sizeof(struct dinode) == sizeof(struct dirent)
  const IPB: nat := 16           // BSIZE / sizeof(struct dinode)
  const BPB: nat := 8192         // BSIZE * 8
  const NBUF: nat := 30
  const NINODE: nat := 50
  const DIRSIZ: nat := 62
  const ROOTINO: nat := 1
  const T_DIR: Short := 1
  const T_FILE: Short := 2
  const T_DEVICE: Short := 3

  type Byte = x: int | 0 <= x < 0x100
  type Ushort = x: int | 0 <= x < 0x1_0000
  type Short = x: int | -0x8000 <= x < 0x8000
  type Uint = x: int | 0 <= x < 0x1_0000_0000
  type Block = b: seq<Byte> | |b| == BSIZE witness seq(BSIZE, _ => 0)
  type Record = r: seq<Byte> | |r| == RECSIZE witness seq(RECSIZE, _ => 0)

  /** A zeroed block. */
  function Zeros(): Block { seq(BSIZE, _ => 0) }

  lemma ConstantsAgree()
    ensures NINDIRECT * 4 == BSIZE && NADDR == NDIRECT + 2
    ensures MAXFILE == NDIRECT + NINDIRECT + NINDIRECT * NINDIRECT
    ensures BSIZE == 1024 && NDIRECT == 11 && DIRSIZ == 62 && NBUF == 30 && NINODE == 50
    ensures MAXBYTES == MAXFILE * BSIZE && IPB * RECSIZE == BSIZE && BPB == 8 * BSIZE
  {
  }

  // ---------- little-endian integers ----------

  /** The unsigned 32-bit value whose bytes start at `at`. */
  function Le32(s: seq<Byte>, at: nat): Uint
    requires at + 4 <= |s|
  {
    var (b0: int, b1: int, b2: int, b3: int) := (s[at], s[at + 1], s[at + 2], s[at + 3]);
    b0 + 0x100 * (b1 + 0x100 * (b2 + 0x100 * b3))
  }

  /** Byte number `k` (0 is least significant) of a 32-bit value. */
  function ByteOf(v: Uint, k: nat): Byte
    requires k < 4
  {
    if k == 0 then v % 0x100 else if k == 1 then v / 0x100 % 0x100
    else if k == 2 then v / 0x100 / 0x100 % 0x100 else v / 0x100 / 0x100 / 0x100
  }

  function Le16(s: seq<Byte>, at: nat): Ushort
    requires at + 2 <= |s|
  {
    var (b0: int, b1: int) := (s[at], s[at + 1]);
    b0 + 0x100 * b1
  }

  /** Two's complement reading of a 16-bit pattern, and back. */
  function ToShort(u: Ushort): Short { if u < 0x8000 then u else u - 0x1_0000 }
  function FromShort(v: Short): Ushort { if v >= 0 then v else v + 0x1_0000 }

  // ---------- a block as an array of block numbers ----------

  function Word(b: Block, j: nat): Uint
    requires j < NINDIRECT
  {
    Le32(b, 4 * j)
  }

  function SetWord(b: Block, j: nat, v: Uint): Block
    requires j < NINDIRECT
  {
    b[4 * j := ByteOf(v, 0)][4 * j + 1 := ByteOf(v, 1)][4 * j + 2 := ByteOf(v, 2)][4 * j + 3 := ByteOf(v, 3)]
  }

  lemma WordOfSetWord(b: Block, j: nat, v: Uint)
    requires j < NINDIRECT
    ensures Word(SetWord(b, j, v), j) == v
    ensures forall k :: 0 <= k < NINDIRECT && k != j ==> Word(SetWord(b, j, v), k) == Word(b, k)
  {
    var c := SetWord(b, j, v);
    assert c[4 * j] == ByteOf(v, 0) && c[4 * j + 1] == ByteOf(v, 1);
    assert c[4 * j + 2] == ByteOf(v, 2) && c[4 * j + 3] == ByteOf(v, 3);
  }

  // ---------- a block as an array of allocation bits ----------

  function Pow2(n: nat): nat { if n == 0 then 1 else 2 * Pow2(n - 1) }

  /** Bit `k` of a byte. */
  predicate TestBit(x: nat, k: nat)
  {
    if k == 0 then x % 2 == 1 else TestBit(x / 2, k - 1)
  }

  /** The byte with bit `k` set or cleared. */
  function WithBit(x: nat, k: nat, on: bool): nat
  {
    if k == 0 then x / 2 * 2 + (if on then 1 else 0) else 2 * WithBit(x / 2, k - 1, on) + x % 2
  }

  lemma HalfOf(x: nat, y: nat, r: nat)
    requires r < 2 && x == 2 * y + r
    ensures x / 2 == y && x % 2 == r
  {
  }

  lemma {:induction false} TestWithBit(x: nat, k: nat, on: bool, m: nat)
    ensures TestBit(WithBit(x, k, on), m) == if m == k then on else TestBit(x, m)
  {
    if k == 0 {
      HalfOf(WithBit(x, k, on), x / 2, if on then 1 else 0);
    } else {
      HalfOf(WithBit(x, k, on), WithBit(x / 2, k - 1, on), x % 2);
      if m > 0 { TestWithBit(x / 2, k - 1, on, m - 1); }
    }
  }

  lemma {:induction false} WithBitFits(x: nat, k: nat, on: bool, w: nat)
    requires k < w && x < Pow2(w)
    ensures WithBit(x, k, on) < Pow2(w)
  {
    var (h, r) := (x / 2, x % 2);
    HalfOf(x, h, r);
    assert h < Pow2(w - 1);
    if k > 0 { WithBitFits(h, k - 1, on, w - 1); }
  }

  /** The k-th binary digit of a byte is 1. */
  predicate Digit(x: Byte, k: nat)
    requires k < 8
  {
    x / [1, 2, 4, 8, 16, 32, 64, 128][k] % 2 == 1
  }

  /** That is what its bit `k` is. */
  lemma BitOfByte(x: Byte, k: nat)
    requires k < 8
    ensures TestBit(x, k) <==> Digit(x, k)
  {
    BitIsDigit(x, k);
    assert Pow2(3) == 8 && Pow2(7) == 128;
    assert Pow2(k) == [1, 2, 4, 8, 16, 32, 64, 128][k];
  }

  lemma {:induction false} BitIsDigit(x: nat, k: nat)
    ensures Pow2(k) > 0 && (TestBit(x, k) <==> x / Pow2(k) % 2 == 1)
  {
    if k > 0 {
      BitIsDigit(x / 2, k - 1);
      DivTwice(x, Pow2(k - 1));
    }
  }

  lemma DivTwice(x: nat, n: nat)
    requires n > 0
    ensures x / 2 / n == x / (2 * n)
  {
    var (q, r) := (x / 2 / n, x / 2 % n);
    assert x == q * (2 * n) + (2 * r + x % 2) by { assert x / 2 == q * n + r; }
    QuotientIs(x, 2 * n, q, 2 * r + x % 2);
  }

  lemma QuotientIs(x: nat, n: nat, q: nat, r: nat)
    requires r < n && x == q * n + r
    ensures x / n == q
  {
    Multiples(x / n - q, n);
    assert (x / n - q) * n == r - x % n;
  }

  lemma Multiples(d: int, n: int)
    requires n > 0
    ensures (d > 0 ==> d * n >= n) && (d < 0 ==> d * n + n <= 0)
  {
    if d > 0 { Product(d - 1, n); } else if d < 0 { Product(-d - 1, n); }
  }

  lemma Product(d: int, n: int)
    requires d >= 0 && n > 0
    ensures d * n >= 0 && (d + 1) * n == d * n + n && (-d - 1) * n == -(d * n) - n
  {
  }

  function SetByteBit(x: Byte, k: nat, on: bool): Byte
    requires k < 8
  {
    assert Pow2(8) == 0x100 by { assert Pow2(4) == 16; }
    WithBitFits(x, k, on, 8);
    WithBit(x, k, on)
  }

  predicate BlockBit(b: Block, n: nat)
    requires n < BPB
  {
    TestBit(b[n / 8], n % 8)
  }

  lemma BitOfBlock(b: Block, n: nat)
    requires n < BPB
    ensures BlockBit(b, n) <==> Digit(b[n / 8], n % 8)
  {
    hide TestBit, Digit;
    BitOfByte(b[n / 8], n % 8);
  }

  function SetBlockBit(b: Block, n: nat, on: bool): Block
    requires n < BPB
  {
    b[n / 8 := SetByteBit(b[n / 8], n % 8, on)]
  }

  lemma BitOfSetBit(b: Block, n: nat, on: bool)
    requires n < BPB
    ensures forall m :: 0 <= m < BPB ==> BlockBit(SetBlockBit(b, n, on), m) == if m == n then on else BlockBit(b, m)
  {
    forall m | 0 <= m < BPB
      ensures BlockBit(SetBlockBit(b, n, on), m) == if m == n then on else BlockBit(b, m)
    {
      if m / 8 == n / 8 { TestWithBit(b[n / 8], n % 8, on, m % 8); }
    }
  }

  // ---------- a block as an array of 64-byte records ----------

  function RecordAt(b: Block, k: nat): Record
    requires k < IPB
  {
    b[RECSIZE * k..RECSIZE * k + RECSIZE]
  }

  function SetRecord(b: Block, k: nat, r: Record): Block
    requires k < IPB
  {
    b[..RECSIZE * k] + r + b[RECSIZE * k + RECSIZE..]
  }

  /** Three pieces put together are found where they were put. */
  lemma Pieces(pre: seq<Byte>, mid: seq<Byte>, post: seq<Byte>)
    ensures var c := pre + mid + post;
      c[..|pre|] == pre && c[|pre|..|pre| + |mid|] == mid && c[|pre| + |mid|..] == post
  {
  }

  /** A slice of a slice. */
  lemma SliceOfSlice(s: seq<Byte>, a: nat, b: nat, i: nat, j: nat)
    requires a <= b <= |s| && i <= j <= b - a
    ensures s[a..b][i..j] == s[a + i..a + j]
  {
    var (t, u) := (s[a..b][i..j], s[a + i..a + j]);
    assert |t| == |u| && forall k :: 0 <= k < j - i ==> t[k] == s[a..b][i + k] == s[a + i + k] == u[k];
  }

  lemma RecordOfSetRecord(b: Block, k: nat, r: Record)
    requires k < IPB
    ensures RecordAt(SetRecord(b, k, r), k) == r
    ensures forall m :: 0 <= m < IPB && m != k ==> RecordAt(SetRecord(b, k, r), m) == RecordAt(b, m)
  {
    var (c, lo, hi) := (SetRecord(b, k, r), RECSIZE * k, RECSIZE * k + RECSIZE);
    Pieces(b[..lo], r, b[hi..]);
    assert c[..lo] == b[..lo] && c[lo..hi] == r && c[hi..] == b[hi..];
    hide SetRecord;
    forall m | 0 <= m < IPB && m != k
      ensures RecordAt(c, m) == RecordAt(b, m)
    {
      OtherRecord(b, c, k, m);
    }
  }

  lemma OtherRecord(b: Block, c: Block, k: nat, m: nat)
    requires k < IPB && m < IPB && m != k
    requires c[..RECSIZE * k] == b[..RECSIZE * k] && c[RECSIZE * k + RECSIZE..] == b[RECSIZE * k + RECSIZE..]
    ensures RecordAt(c, m) == RecordAt(b, m)
  {
    var (lo, hi) := (RECSIZE * k, RECSIZE * k + RECSIZE);
    if m < k {
      SliceOfSlice(b, 0, lo, RECSIZE * m, RECSIZE * m + RECSIZE);
      SliceOfSlice(c, 0, lo, RECSIZE * m, RECSIZE * m + RECSIZE);
      assert c[0..lo] == b[0..lo];
    } else {
      SliceOfSlice(b, hi, BSIZE, RECSIZE * m - hi, RECSIZE * m + RECSIZE - hi);
      SliceOfSlice(c, hi, BSIZE, RECSIZE * m - hi, RECSIZE * m + RECSIZE - hi);
      assert c[hi..BSIZE] == b[hi..BSIZE];
    }
  }

  // ---------- inodes ----------

  datatype Inode = Inode(typ: Short, major: Short, minor: Short, nlink: Short, size: Uint, addrs: seq<Uint>)

  /** struct dinode: exactly NADDR block numbers. */
  type Dinode = d: Inode | |d.addrs| == NADDR witness Inode(0, 0, 0, 0, 0, [0, 0, 0, 0, 0, 0, 0, 0, 0, 0, 0, 0, 0])

  const NOADDRS: seq<Uint> := [0, 0, 0, 0, 0, 0, 0, 0, 0, 0, 0, 0, 0]

  /** A zeroed inode record with its type set, as ialloc leaves it. */
  function EmptyInode(typ: Short): Dinode { Inode(typ, 0, 0, 0, 0, NOADDRS) }

  function EncodeInode(d: Dinode): Record
  {
    var (t, m, n, l) := (FromShort(d.typ), FromShort(d.major), FromShort(d.minor), FromShort(d.nlink));
    [t % 0x100, t / 0x100, m % 0x100, m / 0x100, n % 0x100, n / 0x100, l % 0x100, l / 0x100,
     ByteOf(d.size, 0), ByteOf(d.size, 1), ByteOf(d.size, 2), ByteOf(d.size, 3)]
    + seq(4 * NADDR, i requires 0 <= i < 4 * NADDR => ByteOf(d.addrs[i / 4], i % 4))
  }

  function DecodeInode(r: Record): Dinode
  {
    Inode(ToShort(Le16(r, 0)), ToShort(Le16(r, 2)), ToShort(Le16(r, 4)), ToShort(Le16(r, 6)), Le32(r, 8),
          seq(NADDR, k requires 0 <= k < NADDR => Le32(r, 12 + 4 * k)))
  }

  lemma Le32OfBytes(s: seq<Byte>, at: nat, v: Uint)
    requires at + 4 <= |s|
    requires forall k :: 0 <= k < 4 ==> s[at + k] == ByteOf(v, k)
    ensures Le32(s, at) == v
  {
    assert s[at + 0] == ByteOf(v, 0) && s[at + 1] == ByteOf(v, 1);
    assert s[at + 2] == ByteOf(v, 2) && s[at + 3] == ByteOf(v, 3);
  }

  lemma AddrRoundTrip(d: Dinode, k: nat)
    requires k < NADDR
    ensures Le32(EncodeInode(d), 12 + 4 * k) == d.addrs[k]
  {
    hide ByteOf, Le16, FromShort;
    var r := EncodeInode(d);
    var a := seq(4 * NADDR, i requires 0 <= i < 4 * NADDR => ByteOf(d.addrs[i / 4], i % 4));
    assert r[12..] == a;
    forall m | 0 <= m < 4
      ensures r[12 + 4 * k + m] == ByteOf(d.addrs[k], m)
    {
      assert r[12 + 4 * k + m] == a[4 * k + m];
      assert (4 * k + m) / 4 == k && (4 * k + m) % 4 == m;
    }
    Le32OfBytes(r, 12 + 4 * k, d.addrs[k]);
  }

  lemma ShortRoundTrip(r: Record, at: nat, v: Short)
    requires at + 2 <= RECSIZE
    requires r[at] == FromShort(v) % 0x100 && r[at + 1] == FromShort(v) / 0x100
    ensures ToShort(Le16(r, at)) == v
  {
  }

  /** The fields in the first twelve bytes. */
  lemma FieldsRoundTrip(d: Dinode)
    ensures var e := DecodeInode(EncodeInode(d));
      e.typ == d.typ && e.major == d.major && e.minor == d.minor && e.nlink == d.nlink && e.size == d.size
  {
    var r := EncodeInode(d);
    hide ByteOf, ToShort, FromShort, Le16, Le32;
    ShortRoundTrip(r, 0, d.typ);
    ShortRoundTrip(r, 2, d.major);
    ShortRoundTrip(r, 4, d.minor);
    ShortRoundTrip(r, 6, d.nlink);
    Le32OfBytes(r, 8, d.size);
  }

  /** What iupdate stores, ilock loads. */
  lemma InodeRoundTrip(d: Dinode)
    ensures DecodeInode(EncodeInode(d)) == d
  {
    hide EncodeInode, Le16, Le32, ToShort;
    FieldsRoundTrip(d);
    var r := EncodeInode(d);
    forall k | 0 <= k < NADDR
      ensures DecodeInode(r).addrs[k] == d.addrs[k]
    {
      AddrRoundTrip(d, k);
    }
    assert DecodeInode(r).addrs == d.addrs;
  }

  /** A zeroed record is the free inode. */
  lemma ZeroRecordIsFree()
    ensures DecodeInode(seq(RECSIZE, _ => 0)) == EmptyInode(0)
  {
    assert DecodeInode(seq(RECSIZE, _ => 0)).addrs == NOADDRS;
  }
}
