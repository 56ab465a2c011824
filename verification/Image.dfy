/** Formatting the disk (xv6fs/src/fs.c, create_image and what it calls): the image is
    written straight to the disk, and the file system's invariant holds of it. */
module Image {
  import opened Layout
  import opened BlockStore
  import opened BlockTree
  import opened Invariant
  import opened Directory
  import opened DirectoryOps
  import opened References
  import opened Namei
  import opened Links
  import opened FileSystem
  import opened OpenFiles
  import opened Server
  import Sysfile

  const FSSIZE: nat := 32768
  const NINODES: nat := 200
  const NLOG: nat := 30
  const FSMAGIC: Uint := 0x1020_3040

  function NBitmap(): nat { FSSIZE / (BSIZE * 8) + 1 }
  function NInodeBlocks(): nat { NINODES / IPB + 1 }
  function NMeta(): nat { 2 + NLOG + NInodeBlocks() + NBitmap() }

  function Geo(): Geometry { Geometry(FSSIZE, NINODES, 2 + NLOG, 2 + NLOG + NInodeBlocks(), NMeta()) }

  /** Boot, super, log, inode and bitmap blocks are fifty; the root's data block follows. */
  lemma Numbers()
    ensures NMeta() == 50 && Geo() == Geometry(32768, 200, 32, 45, 50) && Geo().Valid()
  {
  }

  // ---------- the super block ----------

  /** The words of struct superblock, in its order. */
  function SuperWords(): seq<Uint>
  {
    [FSMAGIC, FSSIZE, FSSIZE - NMeta(), NINODES, NLOG, 2, 2 + NLOG, 2 + NLOG + NInodeBlocks()]
  }

  function WithWords(b: Block, words: seq<Uint>, n: nat): Block
    requires n <= |words| <= NINDIRECT
  {
    if n == 0 then b else SetWord(WithWords(b, words, n - 1), n - 1, words[n - 1])
  }

  lemma {:induction false} WordsOfWithWords(b: Block, words: seq<Uint>, n: nat, k: nat)
    requires n <= |words| <= NINDIRECT && k < NINDIRECT
    ensures Word(WithWords(b, words, n), k) == if k < n then words[k] else Word(b, k)
  {
    if n > 0 {
      WordsOfWithWords(b, words, n - 1, k);
      WordOfSetWord(WithWords(b, words, n - 1), n - 1, words[n - 1]);
      hide Word, SetWord;
    }
  }

  function Super(): Block { WithWords(Zeros(), SuperWords(), 8) }

  /** readsb finds in block 1 what create_image stored there. */
  lemma SuperBlockRoundTrip(k: nat)
    requires k < 8
    ensures Word(Super(), k) == SuperWords()[k]
  {
    WordsOfWithWords(Zeros(), SuperWords(), 8, k);
  }

  // ---------- the bitmap ----------

  /** The first `n` bits set. */
  function BitmapBlock(n: nat): Block
    requires n <= BPB
  {
    if n == 0 then Zeros() else SetBlockBit(BitmapBlock(n - 1), n - 1, true)
  }

  lemma {:induction false} BitsOfBitmap(n: nat, m: nat)
    requires n <= BPB && m < BPB
    ensures BlockBit(BitmapBlock(n), m) <==> m < n
  {
    if n == 0 {
      NoBits(m % 8);
    } else {
      BitsOfBitmap(n - 1, m);
      BitOfSetBit(BitmapBlock(n - 1), n - 1, true);
    }
  }

  lemma {:induction false} NoBits(k: nat)
    ensures !TestBit(0, k)
  {
    if k > 0 { NoBits(k - 1); }
  }

  // ---------- what the image is to look like ----------

  const USED: nat := 51

  /** The blocks with the bitmap that create_image writes last. */
  function Marked(blocks: seq<Block>): seq<Block>
  {
    if |blocks| == FSSIZE then blocks[Geo().bmapstart := BitmapBlock(USED)] else blocks
  }

  function NoInodes(): seq<Dinode> { seq(NINODES, _ => EmptyInode(0)) }

  predicate IsData(b: nat) { NMeta() <= b < FSSIZE }

  function NoData(): map<nat, Block> { map b: nat | b < FSSIZE && IsData(b) :: Zeros() }

  ghost predicate Zeroed(blocks: seq<Block>) {
    |blocks| == FSSIZE && forall k :: 0 <= k < FSSIZE && k != 1 ==> blocks[k] == Zeros()
  }

  lemma ZeroedBit(blocks: seq<Block>, b: nat)
    requires Zeroed(blocks) && b < FSSIZE
    ensures Sized(Geo(), Marked(blocks)) && (BitAt(Geo(), Marked(blocks), b) <==> b < USED)
  {
    hide BlockBit;
    Numbers();
    if b / BPB == 0 {
      BitsOfBitmap(USED, b % BPB);
    } else {
      BitsOfBitmap(0, b % BPB);
    }
  }

  lemma ZeroedInode(blocks: seq<Block>, i: nat)
    requires Zeroed(blocks) && i < NINODES
    ensures Sized(Geo(), Marked(blocks)) && InodeAt(Geo(), Marked(blocks), i) == EmptyInode(0)
  {
    Numbers();
    ZeroRecordIsFree();
    assert RecordAt(Zeros(), i % IPB) == seq(RECSIZE, _ => 0);
    hide DecodeInode, BitmapBlock;
  }

  /** A zeroed disk has free inodes and zeroed data blocks. */
  lemma ZeroedViews(blocks: seq<Block>)
    requires Zeroed(blocks)
    ensures Views(Geo(), Marked(blocks), Below(USED), NoInodes(), NoData())
  {
    hide BitAt, InodeAt, Below, BitmapBlock;
    Numbers();
    BelowFacts(USED);
    forall b: nat | b < FSSIZE ensures BitAt(Geo(), Marked(blocks), b) <==> b in Below(USED) { ZeroedBit(blocks, b); }
    forall i: nat | i < NINODES ensures InodeAt(Geo(), Marked(blocks), i) == EmptyInode(0) { ZeroedInode(blocks, i); }
  }

  /** The root's inode, when it is made and when it is done. */
  function NewInode(typ: Short): Dinode { Inode(typ, 0, 0, 1, 0, NOADDRS) }

  function RootInode(): Dinode { Inode(T_DIR, 0, 0, 1, BSIZE, NOADDRS[0 := 50]) }

  function RootBlock(): Block
  {
    Overlay(Overlay(Zeros(), 0, EncodeDirent(ROOTINO, DOT)), RECSIZE, EncodeDirent(ROOTINO, DOTDOT))
  }

  function Inodes(): seq<Dinode> { NoInodes()[ROOTINO := RootInode()] }

  function Data(): map<nat, Block> { NoData()[50 := RootBlock()] }

  lemma FirstBlockIsZero()
    ensures 50 in NoData() && NoData()[50] == Zeros()
  {
    assert IsData(50);
  }

  lemma MarkedIs(blocks: seq<Block>)
    requires |blocks| == FSSIZE
    ensures Geo().bmapstart == 45 && Marked(blocks) == blocks[45 := BitmapBlock(USED)]
  {
  }

  // ---------- create_image ----------

  class Formatter {
    var blocks: seq<Block>
    var freeinode: nat
    var freeblock: nat
    ghost var inodes: seq<Dinode>
    ghost var data: map<nat, Block>

    /** The image is in order, but for the bitmap. */
    ghost predicate Valid()
      reads `blocks, `inodes, `data
    {
      |blocks| == FSSIZE && blocks[1] == Super() && Views(Geo(), Marked(blocks), Below(USED), inodes, data)
    }

    constructor (disk: seq<Block>)
      requires |disk| == FSSIZE
      ensures blocks == disk && freeinode == 1
    {
      blocks, freeinode, freeblock, inodes, data := disk, 1, 0, [], map[];
    }

    /** rinode. */
    method RInode(inum: nat) returns (d: Dinode)
      requires Valid() && inum < NINODES
      ensures inum < |inodes| && d == inodes[inum]
    {
      Numbers();
      var bn := Geo().IBlock(inum);
      d := DecodeInode(RecordAt(blocks[bn], inum % IPB));
      assert d == InodeAt(Geo(), Marked(blocks), inum);
    }

    /** winode: fifteen inodes of the block stay as they are. */
    method WInode(inum: nat, d: Dinode)
      requires Valid() && inum < NINODES
      modifies this`blocks, this`inodes
      ensures Valid() && inum < |old(inodes)| && inodes == old(inodes)[inum := d]
    {
      Numbers();
      ViewsWithInode(Geo(), Marked(blocks), Below(USED), inodes, data, inum, d);
      hide EncodeInode, SetRecord, RecordAt, DecodeInode, BlockBit;
      var bn := Geo().IBlock(inum);
      assert bn < Geo().bmapstart;
      ghost var after := blocks[bn := SetRecord(blocks[bn], inum % IPB, EncodeInode(d))];
      assert Marked(after) == WithInode(Geo(), Marked(blocks), inum, d);
      assert |inodes| == NINODES;
      hide Views;
      blocks := blocks[bn := SetRecord(blocks[bn], inum % IPB, EncodeInode(d))];
      inodes := inodes[inum := d];
    }

    /** wsect of a data block. */
    method WData(b: nat, blk: Block)
      requires Valid() && NMeta() <= b < FSSIZE
      modifies this`blocks, this`data
      ensures Valid() && data == old(data)[b := blk]
    {
      Numbers();
      ViewsWithData(Geo(), Marked(blocks), Below(USED), inodes, data, b, blk);
      assert Marked(blocks[b := blk]) == Marked(blocks)[b := blk];
      hide Views;
      blocks, data := blocks[b := blk], data[b := blk];
    }

    /** init_ialloc. */
    method InitIAlloc(typ: Short) returns (inum: nat)
      requires Valid() && freeinode < NINODES
      modifies this`blocks, this`inodes, this`freeinode
      ensures Valid() && inum == old(freeinode) && freeinode == inum + 1
      ensures inum < |old(inodes)| && inodes == old(inodes)[inum := NewInode(typ)]
    {
      hide Views;
      inum := freeinode;
      freeinode := freeinode + 1;
      WInode(inum, NewInode(typ));
    }

    /** rsect, bcopy and wsect of a data block. */
    method PutBytes(x: nat, at: nat, p: seq<Byte>)
      requires Valid() && NMeta() <= x < FSSIZE && at + |p| <= BSIZE
      modifies this`blocks, this`data
      ensures Valid() && x in old(data) && data == old(data)[x := Overlay(old(data)[x], at, p)]
    {
      hide Views, Geo, NMeta, Super, Overlay;
      BlockOfData(x);
      var buf := blocks[x];
      WData(x, Overlay(buf, at, p));
    }

    /** The block of the inode for its end: there already, or the next free one. */
    method BlockForEnd(din: Dinode, fbn: nat) returns (d: Dinode)
      requires fbn < NADDR && freeblock < FSSIZE
      modifies this`freeblock
      ensures d == din.(addrs := din.addrs[fbn := EndBlock(din, fbn, old(freeblock))])
      ensures freeblock == if din.addrs[fbn] == 0 then old(freeblock) + 1 else old(freeblock)
    {
      d := din;
      if d.addrs[fbn] == 0 {
        d := d.(addrs := d.addrs[fbn := freeblock]);
        freeblock := freeblock + 1;
      } else {
        assert d.addrs[fbn := d.addrs[fbn]] == d.addrs;
      }
    }

    /** iappend of bytes that fit in the block at the inode's end, one of the direct ones. */
    method IAppend(inum: nat, p: seq<Byte>)
      requires Valid() && inum < NINODES && inum < |inodes| && CanAppend(inodes[inum], freeblock, p)
      modifies this`blocks, this`inodes, this`data, this`freeblock
      ensures Valid() && inum < |old(inodes)|
      ensures Appended(old(inodes)[inum], old(data), old(freeblock), p, inodes[inum], data, freeblock)
      ensures inodes == old(inodes)[inum := inodes[inum]]
    {
      hide Views, Geo, Super, Overlay, Below, Marked, Valid;
      Numbers();
      ghost var (d0, data0) := (inodes[inum], data);
      var din: Dinode := RInode(inum);
      var off: nat := din.size;
      var n := |p|;
      while n > 0
        invariant (n == |p| && off == d0.size && data == data0 && din == d0 && freeblock == old(freeblock)) ||
                  (n == 0 && off == d0.size + |p| < 0x1_0000_0000
                    && Appended(d0, data0, old(freeblock), p, din.(size := off), data, freeblock))
        invariant Valid() && inodes == old(inodes)
      {
        var fbn := off / BSIZE;
        din := BlockForEnd(din, fbn);
        var n1 := if n < (fbn + 1) * BSIZE - off then n else (fbn + 1) * BSIZE - off;
        assert off - fbn * BSIZE == off % BSIZE && n1 == n && p[..n1] == p;
        PutBytes(din.addrs[fbn], off - fbn * BSIZE, p[..n1]);
        n, off := n - n1, off + n1;
      }
      din := din.(size := off);
      WInode(inum, din);
    }

    lemma BlockOfData(b: nat)
      requires Valid() && NMeta() <= b < FSSIZE
      ensures b in data && blocks[b] == data[b]
    {
      Numbers();
      assert Marked(blocks)[b] == blocks[b];
    }

    /** The loop of init_balloc. */
    method SetBits(used: nat) returns (buf: Block)
      requires used < BPB
      ensures buf == BitmapBlock(used)
    {
      buf := Zeros();
      var i := 0;
      while i < used
        invariant i <= used && buf == BitmapBlock(i)
      {
        hide SetBlockBit;
        buf := SetBlockBit(buf, i, true);
        i := i + 1;
      }
    }

    /** init_balloc: the bitmap block has its first `used` bits set, and no others. */
    method InitBAlloc(used: nat)
      requires |blocks| == FSSIZE && used < BPB
      modifies this`blocks
      ensures |old(blocks)| == FSSIZE && blocks == old(blocks)[Geo().bmapstart := BitmapBlock(used)]
    {
      var buf := SetBits(used);
      blocks := blocks[Geo().bmapstart := buf];
    }

    /** create_image up to the super block: every block is zeroed first. */
    method Blank()
      requires |blocks| == FSSIZE
      modifies this`blocks, this`freeblock, this`inodes, this`data
      ensures Valid() && freeblock == NMeta() && inodes == NoInodes() && data == NoData()
    {
      hide Views, Geo, BitmapBlock, NoData, Super, Below;
      Numbers();
      freeblock := NMeta();
      var i := 0;
      while i < FSSIZE
        invariant i <= FSSIZE == |blocks| && freeblock == NMeta() && forall k :: 0 <= k < i ==> blocks[k] == Zeros()
      {
        blocks := blocks[i := Zeros()];
        i := i + 1;
      }
      blocks := blocks[1 := Super()];
      inodes, data := NoInodes(), NoData();
      ZeroedViews(blocks);
    }

    /** create_image's root directory, and its size rounded up to a block. */
    method MakeRoot()
      requires Valid() && freeinode == 1 && freeblock == NMeta() && inodes == NoInodes() && data == NoData()
      modifies this
      ensures Valid() && freeblock == USED && inodes == Inodes() && data == Data()
    {
      hide Views, Geo, BitmapBlock, EncodeDirent, Overlay, NoData, Super, Below, Valid;
      Numbers();
      FirstBlockIsZero();
      var rootino := InitIAlloc(T_DIR);
      assert rootino == ROOTINO;
      IAppend(rootino, EncodeDirent(rootino, DOT));
      assert inodes[ROOTINO].addrs == NOADDRS[0 := 50];
      IAppend(rootino, EncodeDirent(rootino, DOTDOT));
      assert inodes[ROOTINO].addrs == NOADDRS[0 := 50];
      var din: Dinode := RInode(rootino);
      var off := din.size;
      off := (off / BSIZE + 1) * BSIZE;
      din := din.(size := off);
      assert din == RootInode();
      WInode(rootino, din);
      assert inodes == Inodes() && data == Data();
    }

    /** What is left to do when all inodes and data are written. */
    lemma WithBitmap()
      requires Valid()
      ensures |blocks| == FSSIZE && blocks[1] == Super() && Geo().bmapstart == 45
      ensures Views(Geo(), blocks[Geo().bmapstart := BitmapBlock(USED)], Below(USED), inodes, data)
    {
      hide Views, Super, BitmapBlock, Below;
      MarkedIs(blocks);
    }

    /** create_image. */
    method CreateImage()
      requires |blocks| == FSSIZE && freeinode == 1
      modifies this
      ensures |blocks| == FSSIZE && blocks[1] == Super() && Views(Geo(), blocks, Below(USED), Inodes(), Data())
    {
      hide Views, Geo, Super, Below, Valid, Inodes, Data, NoData, BitmapBlock;
      Blank();
      MakeRoot();
      WithBitmap();
      InitBAlloc(freeblock);
    }
  }

  function EndBlock(d: Dinode, fbn: nat, free: nat): Uint
  {
    if fbn < NADDR && d.addrs[fbn] != 0 then d.addrs[fbn] else if free < 0x1_0000_0000 then free else 0
  }

  /** The end of the inode is in a direct block, with room for `p`. */
  predicate CanAppend(d: Dinode, free: nat, p: seq<Byte>)
  {
    && 0 < |p| <= BSIZE - d.size % BSIZE && d.size < NDIRECT * BSIZE && NMeta() <= free < FSSIZE
    && (d.addrs[d.size / BSIZE] == 0 || NMeta() <= d.addrs[d.size / BSIZE] < FSSIZE)
  }

  /** What iappend does to its inode, the data blocks and the number of the next free one. */
  ghost predicate Appended(d: Dinode, data: map<nat, Block>, free: nat, p: seq<Byte>, d': Dinode,
                           data': map<nat, Block>, free': nat)
  {
    var fbn := d.size / BSIZE;
    && fbn < NADDR && d.size % BSIZE + |p| <= BSIZE && free < 0x1_0000_0000 && d.size + |p| < 0x1_0000_0000
    && var x := EndBlock(d, fbn, free);
       && free' == (if d.addrs[fbn] == 0 then free + 1 else free) && x in data
       && d' == d.(size := d.size + |p|, addrs := d.addrs[fbn := x])
       && data' == data[x := Overlay(data[x], d.size % BSIZE, p)]
  }

  // ---------- the formatted file system ----------

  ghost function RootOwner(): map<nat, Owner> { map[50 := Owner(ROOTINO, Root(0))] }

  ghost function FilesOf(data: Disk, inodes: seq<Dinode>): seq<File>
  {
    seq(|inodes|, i requires 0 <= i < |inodes| => FileOf(data, inodes[i]))
  }

  ghost function Formatted(): State
  {
    State(Data(), Below(USED), Inodes(), EmptyTable(), map[], Inodes(), RootOwner(), FilesOf(Data(), Inodes()),
      {ROOTINO})
  }

  /** The root's only pointer. */
  lemma RootPtr(s: Slot)
    ensures Ptr(Data(), RootInode().addrs, s) == if s == Root(0) then 50 else 0
    decreases s.Depth()
  {
    if !s.Root? {
      RootPtr(s.Parent());
      assert !IsData(0);
    }
  }

  lemma FreeAddrs(i: nat)
    requires i < NINODES && i != ROOTINO
    ensures Inodes()[i] == EmptyInode(0)
  {
  }

  lemma DataFacts()
    ensures 50 in Data() && 0 !in Data() && forall b: nat :: b in Data() ==> 50 <= b
  {
    assert IsData(50);
    assert !IsData(0);
    hide RootBlock;
  }

  ghost predicate Single(live: seq<Dinode>, i: nat)
  {
    forall j: nat {:trigger Allocated(live, j)} :: Allocated(live, j) ==> j == i
  }

  /** A file system with one file of one block. */
  lemma OneOwner(data: Disk, live: seq<Dinode>, b: nat, i: nat, s: Slot)
    requires 0 !in data && b in data && Allocated(live, i) && Single(live, i)
    requires forall t {:trigger Ptr(data, live[i].addrs, t)} :: Ptr(data, live[i].addrs, t) == if t == s then b else 0
    ensures Owned(data, live, map[b := Owner(i, s)])
  {
    hide Ptr;
  }

  lemma OnlyRoot()
    ensures |Inodes()| == NINODES && Inodes()[ROOTINO] == RootInode() && Allocated(Inodes(), ROOTINO)
    ensures Single(Inodes(), ROOTINO)
  {
    forall j: nat | j < NINODES ensures Allocated(Inodes(), j) ==> j == ROOTINO {
      if j != ROOTINO { FreeAddrs(j); }
    }
  }

  lemma FormattedTrees()
    ensures TreesOk(Formatted()) && NoLeak(Formatted())
  {
    var st := Formatted();
    BelowFacts(USED);
    DataFacts();
    hide Below, Data, Ptr, Owned;
    OnlyRoot();
    hide RootInode, Inodes;
    forall t ensures Ptr(st.data, st.live[ROOTINO].addrs, t) == if t == Root(0) then 50 else 0 { RootPtr(t); }
    hide Allocated, Single;
    OneOwner(st.data, st.live, 50, ROOTINO, Root(0));
  }

  lemma RootZeroTail()
    ensures ZeroTail(Data(), RootInode()) && Dense(Data(), RootInode())
  {
    hide Ptr;
    RootPtr(Root(0));
    forall p: nat | BSIZE <= p < MAXBYTES ensures FileByte(Data(), RootInode().addrs, p) == 0 {
      RootPtr(SlotOf(p / BSIZE));
      assert !IsData(0);
    }
    forall bn: nat | bn * BSIZE < BSIZE ensures Ptr(Data(), RootInode().addrs, SlotOf(bn)) != 0 { assert bn == 0; }
  }

  /** The root directory's bytes are its one block. */
  lemma RootContent()
    ensures Content(Data(), RootInode()) == RootBlock()
  {
    hide Ptr, RootBlock;
    RootPtr(Root(0));
    assert IsData(50);
    forall p: nat | p < BSIZE ensures FileByte(Data(), RootInode().addrs, p) == RootBlock()[p] {
      assert SlotOf(p / BSIZE) == Root(0);
    }
  }

  lemma FormattedTable()
    ensures TableOk(Formatted().itable, Formatted().slots, Formatted().live)
  {
    hide Data, Inodes, RootOwner, FilesOf, Below;
  }

  lemma FormattedFiles()
    ensures FilesOk(Formatted(), 0)
  {
    hide Data, Below, NoData, RootBlock, RootInode, Inodes;
    var st := Formatted();
    OnlyRoot();
    forall i: nat | i < |st.live| ensures InodeOk(st.data, st.inodes[i], st.live[i], st.files[i]) { FormattedInode(i); }
    RootZeroTail();
    hide InodeOk, Dense, FilesOf, RootOwner;
  }

  lemma FormattedInode(i: nat)
    requires i < NINODES
    ensures InodeOk(Data(), Inodes()[i], Inodes()[i], FilesOf(Data(), Inodes())[i])
  {
    hide NoData, RootBlock, Data;
    if i != ROOTINO {
      FreeAddrs(i);
      FreeShadow();
    } else {
      RootZeroTail();
      DataFacts();
      ShadowOfItself(Data(), RootInode());
    }
    hide Shadow, ZeroTail, Content, Dense;
  }

  /** create_image establishes the file system's invariant. */
  lemma FormattedInv()
    ensures Inv(Formatted(), 0) && Tidy(Formatted())
  {
    hide TreesOk, TableOk, FilesOk, Formatted;
    FormattedTrees();
    FormattedFiles();
    FormattedTable();
    InvFrom(Formatted(), 0);
    assert Formatted().inodes == Formatted().live by { FormattedInodes(); }
  }

  lemma FormattedInodes()
    ensures Formatted().inodes == Formatted().live
  {
    hide Below, RootOwner, FilesOf, Data, Inodes;
  }

  lemma FreeShadow()
    ensures Shadow(Data(), EmptyInode(0), EmptyInode(0))
  {
  }

  // ---------- the root directory ----------

  lemma OverlayIsSplice(b: Block, at: nat, piece: seq<Byte>)
    requires at + |piece| <= BSIZE
    ensures Overlay(b, at, piece) == Splice(b, at, piece)
  {
  }

  lemma {:induction false} NoEntries(n: nat)
    requires n <= Count(Zeros())
    ensures MapOf(Zeros(), n) == map[]
  {
    hide DecodeDirent;
    if n > 0 {
      NoEntries(n - 1);
      NoEntryAt(n - 1);
    }
  }

  lemma NoEntryAt(k: nat)
    requires k < Count(Zeros())
    ensures EntryAt(Zeros(), k).inum == 0
  {
    assert Zeros()[RECSIZE * k..RECSIZE * k + RECSIZE] == ZeroRecord();
    ZeroRecordIsEmpty();
    hide DecodeDirent;
  }

  lemma NoEntriesOk()
    ensures DirOk(Zeros()) && DirMap(Zeros()) == map[]
  {
    hide EntryAt;
    NoEntries(Count(Zeros()));
    forall k: nat | k < Count(Zeros()) ensures EntryAt(Zeros(), k).inum == 0 { NoEntryAt(k); }
  }

  /** An entry stored in an empty slot of a directory block. */
  lemma EntryStored(b: Block, k: nat, name: Name)
    requires DirOk(b) && k < Count(b) && EntryAt(b, k).inum == 0 && |name| <= DIRSIZ && name !in DirMap(b)
    requires forall j :: 0 <= j < |name| ==> name[j] != 0
    ensures var b' := Overlay(b, RECSIZE * k, EncodeDirent(ROOTINO, name));
      && DirOk(b') && DirMap(b') == DirMap(b)[name := ROOTINO]
      && forall j :: 0 <= j < Count(b) && j != k ==> EntryAt(b', j) == EntryAt(b, j)
  {
    var r := EncodeDirent(ROOTINO, name);
    DirentRoundTrip(ROOTINO, name);
    Sysfile.CutOfShort(name, DIRSIZ);
    OverlayIsSplice(b, RECSIZE * k, r);
    SpliceEntry(b, k, r);
    hide EntryAt, DecodeDirent, EncodeDirent, Overlay, Splice, DirOk, Cut;
    BindingAdded(b, Splice(b, RECSIZE * k, r), k, DecodeDirent(r));
  }

  /** The root holds "." and "..", and nothing else. */
  lemma RootDirectory()
    ensures DirOk(RootBlock()) && DirMap(RootBlock()) == map[DOT := ROOTINO, DOTDOT := ROOTINO]
  {
    hide EntryAt, EncodeDirent, Overlay, DirOk, DirMap;
    NoEntriesOk();
    NoEntryAt(0);
    NoEntryAt(1);
    EntryStored(Zeros(), 0, DOT);
    EntryStored(Overlay(Zeros(), 0, EncodeDirent(ROOTINO, DOT)), 1, DOTDOT);
    assert map[][DOT := ROOTINO][DOTDOT := ROOTINO] == map[DOT := ROOTINO, DOTDOT := ROOTINO];
  }

  /** ... and the name space is in order. */
  lemma FormattedNs()
    ensures NsOk(Formatted()) && RootMap(Formatted().files) == map[DOT := ROOTINO, DOTDOT := ROOTINO]
    ensures |Formatted().files| == NINODES && Formatted().files[ROOTINO] == File(T_DIR, 0, 0, 1, RootBlock())
    ensures forall i: nat :: i < NINODES && i != ROOTINO ==> Formatted().files[i] == Free
  {
    var files := Formatted().files;
    RootContent();
    RootDirectory();
    hide RootBlock, DirMap, DirOk, Content, Data, Below;
    assert files[ROOTINO] == File(T_DIR, 0, 0, 1, RootBlock());
    forall i: nat | i < NINODES && i != ROOTINO ensures files[i] == Free { FreeAddrs(i); }
  }

  /** fsinit: format, read the super block back, and adopt the disk. */
  method MakeStore(disk: seq<Block>) returns (store: Store)
    requires |disk| == FSSIZE
    ensures fresh(store) && store.Valid() && store.geo == Geo() && store.pins == multiset{}
    ensures store.marked == Below(USED) && store.inodes == Inodes() && store.data == Data()
  {
    hide Views, Data, Inodes, Below, Super;
    var f := new Formatter(disk);
    f.CreateImage();
    var sb := f.blocks[1];
    SuperFacts();
    assert Word(sb, 0) == FSMAGIC;
    var geo := Geometry(Word(sb, 1), Word(sb, 3), Word(sb, 6), Word(sb, 7), NMeta());
    store := new Store(geo, f.blocks, Below(USED), Inodes(), Data());
  }

  /** ... and the start of the server. */
  method Boot(disk: seq<Block>) returns (server: Server)
    requires |disk| == FSSIZE
    ensures fresh(server) && fresh(server.fs) && fresh(server.fs.store) && server.Valid()
    ensures server.fs.store.geo == Geo() && SameDisk(Formatted(), server.fs.St()) && Tidy(server.fs.St())
    ensures server.fs.slots.Keys == {ROOTINO} && server.loose == multiset{}
    ensures |server.ofile| == NOFILE && forall fd :: 0 <= fd < NOFILE ==> server.ofile[fd] == NFILE
  {
    hide Views, Inv, NsOk, FilesOf, Data, Inodes, Below, RootOwner, SysOk;
    var store := MakeStore(disk);
    FormattedInv();
    FormattedNs();
    hide RootMap, RootBlock;
    var fs := new FileSystem(store, RootOwner(), FilesOf(Data(), Inodes()), {ROOTINO});
    assert fs.St() == Formatted();
    server := new Server(fs);
    SameDiskTidy(Formatted(), server.fs.St());
  }

  lemma SuperFacts()
    ensures Word(Super(), 0) == FSMAGIC && Word(Super(), 1) == Geo().size && Word(Super(), 3) == Geo().ninodes
    ensures Word(Super(), 6) == Geo().inodestart && Word(Super(), 7) == Geo().bmapstart && Geo().nmeta == NMeta()
  {
    SuperBlockRoundTrip(0);
    SuperBlockRoundTrip(1);
    SuperBlockRoundTrip(3);
    SuperBlockRoundTrip(6);
    SuperBlockRoundTrip(7);
  }
}
