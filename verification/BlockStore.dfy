/** The raw block layer of xv6fs/src/fs.c: superblock geometry, block bitmap and
    inode blocks over a flat array of blocks that keeps every write.

    bread/brelse are modelled by the multiset of pinned blocks.  A buffer may be
    used only while it is pinned, and at most NBUF pins exist at any time. */
module BlockStore {
  import opened Layout

  /** The superblock fields fs.c uses, and nmeta, the number of metadata blocks. */
  datatype Geometry = Geometry(size: nat, ninodes: nat, inodestart: nat, bmapstart: nat, nmeta: nat)
  {
    /** boot and super blocks, log | inode blocks | bitmap | data */
    predicate Valid() {
      && 0 < inodestart && 1 < ninodes <= 0x1_0000
      && inodestart + (ninodes - 1) / IPB < bmapstart
      && nmeta < size < 0x8000_0000
      && bmapstart + (size - 1) / BPB < nmeta
    }

    function IBlock(i: nat): nat { i / IPB + inodestart }

    function BBlock(b: nat): nat { b / BPB + bmapstart }
  }

  predicate Sized(geo: Geometry, blocks: seq<Block>) { geo.Valid() && |blocks| == geo.size }

  /** The allocation bit of block `b`. */
  predicate BitAt(geo: Geometry, blocks: seq<Block>, b: nat)
    requires Sized(geo, blocks) && b < geo.size
  {
    BlockBit(blocks[geo.BBlock(b)], b % BPB)
  }

  /** The on-disk inode number `i`. */
  function InodeAt(geo: Geometry, blocks: seq<Block>, i: nat): Dinode
    requires Sized(geo, blocks) && i < geo.ninodes
  {
    DecodeInode(RecordAt(blocks[geo.IBlock(i)], i % IPB))
  }

  /** The three views of a disk: which blocks are marked in use, the inode table,
      and the contents of the data blocks.  Metadata blocks are always marked. */
  ghost predicate Views(geo: Geometry, blocks: seq<Block>, marked: set<nat>, inodes: seq<Dinode>, data: map<nat, Block>)
  {
    && Sized(geo, blocks)
    && (forall b {:trigger BitAt(geo, blocks, b)} :: 0 <= b < geo.size ==> (BitAt(geo, blocks, b) <==> b in marked))
    && (forall b :: b in marked ==> b < geo.size)
    && (forall b: nat :: b < geo.nmeta ==> b in marked)
    && |inodes| == geo.ninodes
    && (forall i {:trigger InodeAt(geo, blocks, i)} :: 0 <= i < geo.ninodes ==> InodeAt(geo, blocks, i) == inodes[i])
    && (forall b: nat :: b in data <==> geo.nmeta <= b < geo.size)
    && (forall b {:trigger blocks[b]} {:trigger data[b]} :: b in data ==> data[b] == blocks[b])
  }

  /** Where the mark of block `b` is on the disk. */
  lemma PlaceOfMark(geo: Geometry, blocks: seq<Block>, marked: set<nat>, inodes: seq<Dinode>, data: map<nat, Block>,
                    b: nat)
    requires Views(geo, blocks, marked, inodes, data) && b < geo.size
    ensures geo.bmapstart + b / 8192 < |blocks|
    ensures b in marked <==> Digit(blocks[geo.bmapstart + b / 8192][b % 8192 / 8], b % 8)
  {
    hide Views, BlockBit, Digit;
    BitOfMark(geo, blocks, marked, inodes, data, b);
    BitOfBlock(blocks[geo.BBlock(b)], b % 8192);
    assert b % 8192 % 8 == b % 8;
  }

  lemma BitOfMark(geo: Geometry, blocks: seq<Block>, marked: set<nat>, inodes: seq<Dinode>, data: map<nat, Block>,
                  b: nat)
    requires Views(geo, blocks, marked, inodes, data) && b < geo.size
    ensures geo.BBlock(b) == geo.bmapstart + b / 8192 < |blocks|
    ensures b in marked <==> BlockBit(blocks[geo.BBlock(b)], b % 8192)
  {
    hide BlockBit, DecodeInode, RecordAt;
    assert BitAt(geo, blocks, b) <==> b in marked;
  }

  /** Where inode `i` is on the disk, and its fields in it. */
  lemma PlaceOfInode(geo: Geometry, blocks: seq<Block>, marked: set<nat>, inodes: seq<Dinode>, data: map<nat, Block>,
                     i: nat)
    requires Views(geo, blocks, marked, inodes, data) && i < geo.ninodes
    ensures geo.inodestart + i / 16 < |blocks| && i < |inodes|
    ensures
      var r: seq<int> := blocks[geo.inodestart + i / 16][64 * (i % 16)..64 * (i % 16) + 64];
      var d := inodes[i];
      && (d.typ - (r[0] + 256 * r[1])) % 65536 == 0 && (d.nlink - (r[6] + 256 * r[7])) % 65536 == 0
      && d.size == r[8] + 256 * r[9] + 65536 * r[10] + 16777216 * r[11]
      && forall k :: 0 <= k < 13 ==>
        d.addrs[k] == r[12 + 4 * k] + 256 * r[13 + 4 * k] + 65536 * r[14 + 4 * k] + 16777216 * r[15 + 4 * k]
  {
    assert InodeAt(geo, blocks, i) == inodes[i];
  }

  function WithBlockBit(geo: Geometry, blocks: seq<Block>, b: nat, on: bool): seq<Block>
    requires Sized(geo, blocks) && b < geo.size
  {
    blocks[geo.BBlock(b) := SetBlockBit(blocks[geo.BBlock(b)], b % BPB, on)]
  }

  /** Setting or clearing one bit changes that block's mark and nothing else,
      although 8192 blocks share the bitmap block. */
  lemma ViewsWithBit(geo: Geometry, blocks: seq<Block>, marked: set<nat>, inodes: seq<Dinode>, data: map<nat, Block>,
                     b: nat, on: bool)
    requires Views(geo, blocks, marked, inodes, data) && geo.nmeta <= b < geo.size
    ensures Views(geo, WithBlockBit(geo, blocks, b, on), if on then marked + {b} else marked - {b}, inodes, data)
  {
    var blocks' := WithBlockBit(geo, blocks, b, on);
    BitOfSetBit(blocks[geo.BBlock(b)], b % BPB, on);
    hide BlockBit, SetBlockBit, DecodeInode, RecordAt;
    forall c | 0 <= c < geo.size
      ensures BitAt(geo, blocks', c) == if c == b then on else BitAt(geo, blocks, c)
    {
      if c / BPB == b / BPB && c != b { assert c % BPB != b % BPB; }
    }
    forall i | 0 <= i < geo.ninodes
      ensures InodeAt(geo, blocks', i) == InodeAt(geo, blocks, i)
    {
      assert geo.IBlock(i) < geo.bmapstart;
    }
  }

  function WithInode(geo: Geometry, blocks: seq<Block>, i: nat, d: Dinode): seq<Block>
    requires Sized(geo, blocks) && i < geo.ninodes
  {
    blocks[geo.IBlock(i) := SetRecord(blocks[geo.IBlock(i)], i % IPB, EncodeInode(d))]
  }

  /** Storing one inode leaves the fifteen others of its block alone. */
  lemma ViewsWithInode(geo: Geometry, blocks: seq<Block>, marked: set<nat>, inodes: seq<Dinode>, data: map<nat, Block>,
                       i: nat, d: Dinode)
    requires Views(geo, blocks, marked, inodes, data) && i < geo.ninodes
    ensures Views(geo, WithInode(geo, blocks, i, d), marked, inodes[i := d], data)
  {
    var blocks' := WithInode(geo, blocks, i, d);
    RecordOfSetRecord(blocks[geo.IBlock(i)], i % IPB, EncodeInode(d));
    InodeRoundTrip(d);
    hide BlockBit, EncodeInode, DecodeInode, RecordAt, SetRecord;
    assert geo.IBlock(i) < geo.bmapstart;
    forall c | 0 <= c < geo.size
      ensures BitAt(geo, blocks', c) == BitAt(geo, blocks, c)
    {
    }
    forall j | 0 <= j < geo.ninodes
      ensures InodeAt(geo, blocks', j) == inodes[i := d][j]
    {
      if j / IPB == i / IPB && j != i { assert j % IPB != i % IPB; }
      assert InodeAt(geo, blocks, j) == inodes[j];
    }
  }

  lemma ViewsWithData(geo: Geometry, blocks: seq<Block>, marked: set<nat>, inodes: seq<Dinode>, data: map<nat, Block>,
                      b: nat, blk: Block)
    requires Views(geo, blocks, marked, inodes, data) && geo.nmeta <= b < geo.size
    ensures Views(geo, blocks[b := blk], marked, inodes, data[b := blk])
  {
    hide BlockBit, DecodeInode, RecordAt;
    var blocks' := blocks[b := blk];
    forall c | 0 <= c < geo.size
      ensures BitAt(geo, blocks', c) == BitAt(geo, blocks, c)
    {
      assert geo.BBlock(c) < geo.nmeta;
    }
    forall j | 0 <= j < geo.ninodes
      ensures InodeAt(geo, blocks', j) == InodeAt(geo, blocks, j)
    {
      assert geo.IBlock(j) < geo.bmapstart;
    }
  }

  class Store {
    const geo: Geometry
    var blocks: seq<Block>
    var pins: multiset<nat>
    ghost var marked: set<nat>
    ghost var inodes: seq<Dinode>
    ghost var data: map<nat, Block>

    ghost predicate Valid()
      reads this
    {
      Views(geo, blocks, marked, inodes, data)
    }

    /** Adopts a formatted disk. */
    constructor (g: Geometry, image: seq<Block>, ghost m: set<nat>, ghost t: seq<Dinode>, ghost d: map<nat, Block>)
      requires Views(g, image, m, t, d)
      ensures Valid() && geo == g && blocks == image && pins == multiset{}
      ensures marked == m && inodes == t && data == d
    {
      geo, blocks, pins := g, image, multiset{};
      marked, inodes, data := m, t, d;
    }

    /** What clients need to know of the views. */
    lemma Facts()
      requires Valid()
      ensures geo.Valid() && |inodes| == geo.ninodes
      ensures forall b: nat :: b in data <==> geo.nmeta <= b < geo.size
      ensures forall b: nat :: b < geo.nmeta ==> b in marked
      ensures forall b :: b in marked ==> b < geo.size
    {
    }

    // ---------- buffers ----------

    method BRead(b: nat)
      requires |pins| < NBUF
      modifies this`pins
      ensures pins == old(pins) + multiset{b}
    {
      pins := pins + multiset{b};
    }

    method BRelse(b: nat)
      requires b in pins
      modifies this`pins
      ensures pins == old(pins) - multiset{b}
    {
      pins := pins - multiset{b};
    }

    /** Reads a pinned data buffer. */
    method Fetch(b: nat) returns (blk: Block)
      requires Valid() && b in pins && b in data
      ensures blk == data[b]
    {
      blk := blocks[b];
    }

    /** Overwrites a pinned data buffer. */
    method Replace(b: nat, blk: Block)
      requires Valid() && b in pins && b in data
      modifies this`blocks, this`data
      ensures Valid() && data == old(data)[b := blk]
    {
      ViewsWithData(geo, blocks, marked, inodes, data, b, blk);
      blocks, data := blocks[b := blk], data[b := blk];
    }

    // ---------- block allocation ----------

    method ZeroBlock(b: nat)
      requires Valid() && b in data && |pins| < NBUF
      modifies this`blocks, this`data, this`pins
      ensures Valid() && pins == old(pins) && data == old(data)[b := Zeros()]
    {
      BRead(b);
      Replace(b, Zeros());
      BRelse(b);
    }

    /** The mark of block `b`, in its bitmap block, which is pinned. */
    method TestMark(b: nat) returns (on: bool)
      requires Valid() && b < geo.size && geo.BBlock(b) in pins
      ensures on <==> b in marked
    {
      var bi := b % BPB;
      on := TestBit(blocks[geo.BBlock(b)][bi / 8], bi % 8);
      assert on == BitAt(geo, blocks, b);
    }

    /** Sets or clears the mark of block `b`, in its bitmap block, which is pinned. */
    method SetMark(b: nat, on: bool)
      requires Valid() && b in data && geo.BBlock(b) in pins
      modifies this`blocks, this`marked
      ensures Valid() && marked == if on then old(marked) + {b} else old(marked) - {b}
    {
      var (bp, bi) := (geo.BBlock(b), b % BPB);
      ViewsWithBit(geo, blocks, marked, inodes, data, b, on);
      blocks := blocks[bp := blocks[bp][bi / 8 := SetByteBit(blocks[bp][bi / 8], bi % 8, on)]];
      marked := if on then marked + {b} else marked - {b};
    }

    /** The inner scan of balloc over one pinned bitmap block: the first clear bit. */
    method FindClear(b: nat) returns (bi: nat)
      requires Valid() && b % BPB == 0 && b < geo.size && geo.BBlock(b) in pins
      ensures bi <= BPB && forall c: nat :: b <= c < b + bi && c < geo.size ==> c in marked
      ensures bi < BPB && b + bi < geo.size ==> b + bi !in marked
    {
      hide Views;
      bi := 0;
      while bi < BPB && b + bi < geo.size
        invariant bi <= BPB
        invariant forall c: nat :: b <= c < b + bi && c < geo.size ==> c in marked
      {
        assert geo.BBlock(b + bi) == geo.BBlock(b);
        var used := TestMark(b + bi);
        if !used { return; }
        bi := bi + 1;
      }
    }

    /** Marks the clear bit of `addr`, releases its bitmap block, zeroes `addr`. */
    method Take(addr: nat)
      requires Valid() && addr in data && geo.BBlock(addr) in pins && |pins| <= NBUF
      modifies this`blocks, this`data, this`marked, this`pins
      ensures Valid() && pins == old(pins) - multiset{geo.BBlock(addr)}
      ensures marked == old(marked) + {addr} && data == old(data)[addr := Zeros()]
    {
      hide Views;
      var bp := geo.BBlock(addr);
      SetMark(addr, true);
      BRelse(bp);
      ZeroBlock(addr);
    }

    /** One round of balloc: the first clear bit of a bitmap block, if any, is taken. */
    method TakeFirst(b: nat) returns (addr: nat)
      requires Valid() && |pins| < NBUF && b < geo.size && b % BPB == 0 && AllMarked(marked, geo.size, b)
      modifies this
      ensures Valid() && pins == old(pins) && inodes == old(inodes)
      ensures addr != 0 ==> FirstFit(geo.size, old(marked), old(data), marked, data, addr)
      ensures addr == 0 ==>
        unchanged(this`blocks, this`data, this`marked, this`inodes) && AllMarked(marked, geo.size, b + BPB)
    {
      hide Views, AllMarked;
      var bp := geo.BBlock(b);
      BRead(bp);
      var bi := FindClear(b);
      AllMarkedMore(marked, geo.size, b, b + bi);
      if bi < BPB && b + bi < geo.size {
        addr := b + bi;
        Facts();
        AllMarkedBelow(marked, geo.size, addr);
        SameBitmapBlock(geo, b, bi);
        Take(addr);
        return;
      }
      BRelse(bp);
      AllMarkedMore(marked, geo.size, b + bi, b + BPB);
      addr := 0;
    }

    /** First-fit allocation of a zeroed block; 0 exactly when every bit is set. */
    method BAlloc() returns (addr: nat)
      requires Valid() && |pins| < NBUF
      modifies this
      ensures Valid() && pins == old(pins) && inodes == old(inodes)
      ensures FirstFit(geo.size, old(marked), old(data), marked, data, addr)
    {
      hide Views, AllMarked;
      var b := 0;
      AllMarkedStart(marked, geo.size);
      while b < geo.size
        invariant b % BPB == 0 && AllMarked(marked, geo.size, b)
        invariant unchanged(this`blocks, this`data, this`marked, this`inodes) && pins == old(pins)
      {
        addr := TakeFirst(b);
        if addr != 0 { return; }
        b := b + BPB;
      }
      AllMarkedBelow(marked, geo.size, b);
      return 0;
    }

    /** Frees a block; the requires is what keeps the panic "freeing free block" away. */
    method BFree(b: nat)
      requires Valid() && b in data && b in marked && |pins| < NBUF
      modifies this`blocks, this`marked, this`pins
      ensures Valid() && pins == old(pins) && marked == old(marked) - {b}
    {
      var bp := geo.BBlock(b);
      BRead(bp);
      var used := TestMark(b);
      assert used;
      SetMark(b, false);
      BRelse(bp);
    }

    // ---------- inode blocks ----------

    /** The inode record in a pinned inode block. */
    method Record(inum: nat) returns (d: Dinode)
      requires Valid() && inum < geo.ninodes && geo.IBlock(inum) in pins
      ensures d == inodes[inum]
    {
      d := DecodeInode(RecordAt(blocks[geo.IBlock(inum)], inum % IPB));
      assert d == InodeAt(geo, blocks, inum);
    }

    method SetInodeRecord(inum: nat, d: Dinode)
      requires Valid() && inum < geo.ninodes && geo.IBlock(inum) in pins
      modifies this`blocks, this`inodes
      ensures Valid() && inodes == old(inodes)[inum := d]
    {
      var bp := geo.IBlock(inum);
      ViewsWithInode(geo, blocks, marked, inodes, data, inum, d);
      blocks := blocks[bp := SetRecord(blocks[bp], inum % IPB, EncodeInode(d))];
      inodes := inodes[inum := d];
    }

    /** The body of iupdate: store an inode into its slot of its inode block. */
    method WriteInode(inum: nat, d: Dinode)
      requires Valid() && inum < geo.ninodes && |pins| < NBUF
      modifies this`blocks, this`inodes, this`pins
      ensures Valid() && pins == old(pins) && inodes == old(inodes)[inum := d]
    {
      hide Views;
      var bp := geo.IBlock(inum);
      BRead(bp);
      SetInodeRecord(inum, d);
      BRelse(bp);
    }

    /** The load half of ilock. */
    method ReadInode(inum: nat) returns (d: Dinode)
      requires Valid() && inum < geo.ninodes && |pins| < NBUF
      modifies this`pins
      ensures pins == old(pins) && d == inodes[inum]
    {
      hide Views;
      var bp := geo.IBlock(inum);
      BRead(bp);
      d := Record(inum);
      BRelse(bp);
    }

    /** The scan of ialloc: claims the lowest free inode above 0, zeroing its record,
        or returns 0 when every inode has a type. */
    method ClaimInode(typ: Short) returns (inum: nat)
      requires Valid() && |pins| < NBUF
      modifies this`blocks, this`inodes, this`pins
      ensures Valid() && pins == old(pins) && Claimed(old(inodes), inodes, typ, inum)
    {
      hide Views, NoneFree;
      Facts();
      inum := 1;
      assert NoneFree(inodes, 1) by { NoneFreeStart(inodes); }
      while inum < geo.ninodes
        invariant 1 <= inum <= geo.ninodes
        invariant unchanged(this`blocks, this`inodes) && pins == old(pins) && NoneFree(inodes, inum)
      {
        var bp := geo.IBlock(inum);
        BRead(bp);
        var d := Record(inum);
        if d.typ == 0 {
          SetInodeRecord(inum, EmptyInode(typ));
          BRelse(bp);
          return;
        }
        BRelse(bp);
        NoneFreeMore(inodes, inum);
        inum := inum + 1;
      }
      inum := 0;
    }
  }

  // ---------- first fit ----------

  /** Blocks below `n` are marked. */
  ghost predicate AllMarked(marked: set<nat>, size: nat, n: nat)
  {
    forall c: nat :: c < n && c < size ==> c in marked
  }

  lemma AllMarkedStart(marked: set<nat>, size: nat)
    ensures AllMarked(marked, size, 0)
  {
  }

  lemma AllMarkedMore(marked: set<nat>, size: nat, n: nat, m: nat)
    requires AllMarked(marked, size, n) && forall c: nat :: n <= c < m && c < size ==> c in marked
    ensures AllMarked(marked, size, m)
  {
  }

  lemma AllMarkedBelow(marked: set<nat>, size: nat, n: nat)
    requires AllMarked(marked, size, n)
    ensures n <= size ==> forall b: nat :: b < n ==> b in marked
    ensures n >= size ==> forall b: nat :: b < size ==> b in marked
  {
  }

  lemma SameBitmapBlock(geo: Geometry, b: nat, bi: nat)
    requires b % BPB == 0 && bi < BPB
    ensures geo.BBlock(b + bi) == geo.BBlock(b)
  {
  }

  /** balloc: the lowest unmarked block, zeroed and marked; 0 when all are marked. */
  ghost predicate FirstFit(size: nat, marked: set<nat>, data: map<nat, Block>, marked': set<nat>,
                           data': map<nat, Block>, addr: nat)
  {
    if addr == 0 then marked' == marked && data' == data && forall b: nat :: b < size ==> b in marked
    else addr in data && addr !in marked && (forall b: nat :: b < addr ==> b in marked)
         && marked' == marked + {addr} && data' == data[addr := Zeros()]
  }

  /** None of the inodes from 1 to `n` is free. */
  ghost predicate NoneFree(inodes: seq<Dinode>, n: nat)
  {
    n <= |inodes| && forall i :: 1 <= i < n ==> inodes[i].typ != 0
  }

  lemma NoneFreeStart(inodes: seq<Dinode>)
    requires inodes != []
    ensures NoneFree(inodes, 1)
  {
  }

  lemma NoneFreeMore(inodes: seq<Dinode>, n: nat)
    requires n < |inodes| && NoneFree(inodes, n) && inodes[n].typ != 0
    ensures NoneFree(inodes, n + 1)
  {
  }

  /** ialloc's scan: the lowest free inode is zeroed and typed; 0 when there is none. */
  ghost predicate Claimed(inodes: seq<Dinode>, inodes': seq<Dinode>, typ: Short, inum: nat)
  {
    if inum == 0 then inodes' == inodes && NoneFree(inodes, |inodes|)
    else inum < |inodes| && inodes[inum].typ == 0 && NoneFree(inodes, inum)
         && inodes' == inodes[inum := EmptyInode(typ)]
  }
}
