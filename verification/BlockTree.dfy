/** The three-level block tree hanging off an inode (fs.c, "Inode content"), as
    pure functions of the data blocks and the inode's addrs array, and the
    ownership invariant that keeps all trees on the disk apart. */
module BlockTree {
  import opened Layout

  type Disk = map<nat, Block>

  /** A place that can hold a block number: one of the 13 addrs of the inode, a word
      of the indirect block, a word of the double-indirect block, or a word of one of
      the blocks the latter points to. */
  datatype Slot = Root(k: nat) | Entry(k: nat) | Mid(k: nat) | Leaf(mid: nat, k: nat)
  {
    /** The slot that holds the block this slot lives in. */
    function Parent(): Slot
      requires !Root?
    {
      match this
      case Entry(_) => Root(NDIRECT)
      case Mid(_) => Root(NDIRECT + 1)
      case Leaf(m, _) => Mid(m)
    }

    function Depth(): nat { if Root? then 0 else if Leaf? then 2 else 1 }

    /** The slots whose block holds block numbers rather than file data. */
    predicate Indirect() { this == Root(NDIRECT) || this == Root(NDIRECT + 1) || Mid? }

    /** The slots bmap passes through on its way to this one, and this one. */
    function Path(): set<Slot>
    {
      match this
      case Root(_) => {this}
      case Entry(_) => {this, Root(NDIRECT)}
      case Mid(_) => {this, Root(NDIRECT + 1)}
      case Leaf(m, _) => {this, Mid(m), Root(NDIRECT + 1)}
    }

    predicate InRange() { k < (if Root? then NADDR else NINDIRECT) && (Leaf? ==> mid < NINDIRECT) }
  }

  /** Word `j` of block `a`, or 0 when `a` is no data block (in particular when it is 0). */
  function WordAt(data: Disk, a: nat, j: nat): nat
  {
    if a in data && j < NINDIRECT then Word(data[a], j) else 0
  }

  /** The block number stored in a slot; 0 when there is none. */
  function Ptr(data: Disk, addrs: seq<Uint>, s: Slot): nat
    decreases s.Depth()
  {
    if s.Root? then (if s.k < |addrs| then addrs[s.k] else 0)
    else WordAt(data, Ptr(data, addrs, s.Parent()), s.k)
  }

  /** The slot of the bn-th block of a file, as bmap's case split computes it. */
  function SlotOf(bn: nat): Slot
  {
    if bn < NDIRECT then Root(bn)
    else if bn < NDIRECT + NINDIRECT then Entry(bn - NDIRECT)
    else Leaf((bn - NDIRECT - NINDIRECT) / NINDIRECT, (bn - NDIRECT - NINDIRECT) % NINDIRECT)
  }

  lemma SlotOfFacts(bn: nat)
    requires bn < MAXFILE
    ensures SlotOf(bn).InRange() && !SlotOf(bn).Indirect()
  {
  }

  lemma SlotOfInjective(bn: nat, bm: nat)
    requires SlotOf(bn) == SlotOf(bm)
    ensures bn == bm
  {
  }

  /** Where the number of the bn-th block of a file stands: in the inode for the first 11
      blocks, in the block of addrs[11] for the next 256, and from there on in the block whose
      number stands in the block of addrs[12], consecutive blocks in consecutive words. */
  lemma PlaceOfBlock(data: Disk, addrs: seq<Uint>, bn: nat)
    requires |addrs| == 13 && bn < 65803
    ensures bn < 11 ==> Ptr(data, addrs, SlotOf(bn)) == addrs[bn]
    ensures 11 <= bn < 267 ==> Ptr(data, addrs, SlotOf(bn)) == WordAt(data, addrs[11], bn - 11)
    ensures 267 <= bn ==>
      Ptr(data, addrs, SlotOf(bn)) ==
      WordAt(data, WordAt(data, addrs[12], (bn - 267) / 256), (bn - 267) % 256)
  {
    hide WordAt;
    if bn >= 267 {
      var (m, k) := ((bn - 267) / 256, (bn - 267) % 256);
      assert SlotOf(bn) == Leaf(m, k) && Leaf(m, k).Parent() == Mid(m) && Mid(m).Parent() == Root(12);
      assert Ptr(data, addrs, Root(12)) == addrs[12];
      assert Ptr(data, addrs, Mid(m)) == WordAt(data, addrs[12], m);
    }
  }

  /** The slots on the way to blocks `lo` to `hi` of a file. */
  function BlockSlots(lo: nat, hi: nat): set<Slot>
  {
    if lo >= hi then {} else BlockSlots(lo, hi - 1) + SlotOf(hi - 1).Path()
  }

  /** The slots on the way to the blocks of `n` bytes from `off`. */
  function SlotsIn(off: nat, n: nat): set<Slot>
  {
    if n == 0 then {} else BlockSlots(off / BSIZE, (off + n - 1) / BSIZE + 1)
  }

  /** The addrs index a slot's path starts from. */
  function RootOf(s: Slot): nat
  {
    match s case Root(k) => k case Entry(_) => NDIRECT case _ => NDIRECT + 1
  }

  function BlockAt(data: Disk, a: nat): Block { if a in data then data[a] else Zeros() }

  /** The bn-th block of a file; a hole reads as zeros. */
  function FileBlock(data: Disk, addrs: seq<Uint>, bn: nat): Block
  {
    BlockAt(data, Ptr(data, addrs, SlotOf(bn)))
  }

  function FileByte(data: Disk, addrs: seq<Uint>, p: nat): Byte
  {
    FileBlock(data, addrs, p / BSIZE)[p % BSIZE]
  }

  // ---------- ownership ----------

  datatype Owner = Owner(inum: nat, slot: Slot)

  ghost predicate Allocated(live: seq<Dinode>, i: nat) { i < |live| && live[i].typ != 0 }

  ghost predicate Holds(owner: map<nat, Owner>, b: nat, i: nat, s: Slot)
  {
    b != 0 ==> b in owner && owner[b] == Owner(i, s)
  }

  /** `owner` is the exact inverse of the pointers of all allocated inodes: a block is
      in it just when some slot of some allocated inode holds it, and then it names
      that slot.  A function cannot name two slots, so no block is shared. */
  ghost predicate Owned(data: Disk, live: seq<Dinode>, owner: map<nat, Owner>)
  {
    && 0 !in data
    && (forall b :: b in owner ==> b in data)
    && (forall b :: b in owner ==> Allocated(live, owner[b].inum))
    && (forall b :: b in owner ==> Ptr(data, live[owner[b].inum].addrs, owner[b].slot) == b)
    && (forall i: nat, s {:trigger Ptr(data, live[i].addrs, s)} ::
          Allocated(live, i) ==> Holds(owner, Ptr(data, live[i].addrs, s), i, s))
  }

  /** No block is reachable twice, within one inode or across two. */
  lemma NoSharing(data: Disk, live: seq<Dinode>, owner: map<nat, Owner>, i: nat, s: Slot, j: nat, t: Slot)
    requires Owned(data, live, owner) && Allocated(live, i) && Allocated(live, j)
    requires Ptr(data, live[i].addrs, s) == Ptr(data, live[j].addrs, t) != 0
    ensures i == j && s == t
  {
    hide Ptr;
    assert owner[Ptr(data, live[i].addrs, s)] == Owner(i, s);
  }

  // ---------- writing a block that holds no block numbers ----------

  /** Overwriting an unowned block, or a block of file data, moves no pointer. */
  lemma {:induction false} WriteKeepsPtr(data: Disk, live: seq<Dinode>, owner: map<nat, Owner>, b: nat, blk: Block,
                                         i: nat, t: Slot)
    requires Owned(data, live, owner) && Allocated(live, i)
    requires b in data && (b in owner ==> !owner[b].slot.Indirect())
    ensures Ptr(data[b := blk], live[i].addrs, t) == Ptr(data, live[i].addrs, t)
    decreases t.Depth()
  {
    if !t.Root? {
      WriteKeepsPtr(data, live, owner, b, blk, i, t.Parent());
      assert Ptr(data, live[i].addrs, t.Parent()) != b;
      hide Word;
    }
  }

  lemma WriteKeepsOwned(data: Disk, live: seq<Dinode>, owner: map<nat, Owner>, b: nat, blk: Block)
    requires Owned(data, live, owner)
    requires b in data && (b in owner ==> !owner[b].slot.Indirect())
    ensures Owned(data[b := blk], live, owner)
  {
    var data' := data[b := blk];
    forall i: nat, t | Allocated(live, i)
      ensures Ptr(data', live[i].addrs, t) == Ptr(data, live[i].addrs, t)
    {
      WriteKeepsPtr(data, live, owner, b, blk, i, t);
    }
    hide Ptr;
  }

  /** A write to an unowned block is invisible in every file. */
  lemma UnownedWriteKeepsFiles(data: Disk, live: seq<Dinode>, owner: map<nat, Owner>, b: nat, blk: Block, i: nat,
                               bn: nat)
    requires Owned(data, live, owner) && Allocated(live, i)
    requires b in data && b !in owner
    ensures FileBlock(data[b := blk], live[i].addrs, bn) == FileBlock(data, live[i].addrs, bn)
  {
    WriteKeepsPtr(data, live, owner, b, blk, i, SlotOf(bn));
    assert Ptr(data, live[i].addrs, SlotOf(bn)) != b;
    hide Ptr, SlotOf;
  }

  /** A write to a file's own block is seen at that block of that file only. */
  lemma DataWrite(data: Disk, live: seq<Dinode>, owner: map<nat, Owner>, i: nat, bn: nat, blk: Block, j: nat, bm: nat)
    requires Owned(data, live, owner) && Allocated(live, i) && Allocated(live, j)
    requires bn < MAXFILE && bm < MAXFILE
    requires Ptr(data, live[i].addrs, SlotOf(bn)) in data
    ensures var data' := data[Ptr(data, live[i].addrs, SlotOf(bn)) := blk];
      FileBlock(data', live[j].addrs, bm) == if j == i && bm == bn then blk else FileBlock(data, live[j].addrs, bm)
  {
    var (s, t) := (SlotOf(bn), SlotOf(bm));
    var b := Ptr(data, live[i].addrs, s);
    SlotOfFacts(bn);
    assert owner[b] == Owner(i, s);
    WriteKeepsPtr(data, live, owner, b, blk, j, t);
    if Ptr(data, live[j].addrs, t) == b {
      NoSharing(data, live, owner, i, s, j, t);
      SlotOfInjective(bn, bm);
    }
    hide Ptr, SlotOf;
  }

  // ---------- storing a block number ----------

  /** A fresh block may be hung into an empty slot whose own block exists. */
  ghost predicate CanGraft(data: Disk, live: seq<Dinode>, owner: map<nat, Owner>, i: nat, s: Slot, a: Uint)
  {
    && Owned(data, live, owner) && Allocated(live, i) && s.InRange()
    && Ptr(data, live[i].addrs, s) == 0
    && (s.Root? || Ptr(data, live[i].addrs, s.Parent()) != 0)
    && a in data && a !in owner && data[a] == Zeros()
  }

  function GraftData(data: Disk, addrs: seq<Uint>, s: Slot, a: Uint): Disk
  {
    if s.Root? || s.k >= NINDIRECT then data else
      var c := Ptr(data, addrs, s.Parent());
      if c in data then data[c := SetWord(data[c], s.k, a)] else data
  }

  function GraftInode(d: Dinode, s: Slot, a: Uint): Dinode
  {
    if s.Root? && s.k < NADDR then d.(addrs := d.addrs[s.k := a]) else d
  }

  lemma ZerosHoldNoWord(j: nat)
    requires j < NINDIRECT
    ensures Word(Zeros(), j) == 0
  {
  }

  lemma WordAtAfterSet(data: Disk, c: nat, k: nat, a: Uint, x: nat, j: nat)
    requires c in data && k < NINDIRECT
    ensures WordAt(data[c := SetWord(data[c], k, a)], x, j) == if x == c && j == k then a else WordAt(data, x, j)
  {
    WordOfSetWord(data[c], k, a);
    hide Word, SetWord;
  }

  /** Grafting changes exactly the slot it writes: the block is fresh and zero, so
      nothing hangs below it, and no other slot lives in the block it is written to. */
  lemma {:induction false} GraftPtr(data: Disk, live: seq<Dinode>, owner: map<nat, Owner>, i: nat, s: Slot, a: Uint,
                                    j: nat, t: Slot)
    requires CanGraft(data, live, owner, i, s, a) && Allocated(live, j)
    ensures Ptr(GraftData(data, live[i].addrs, s, a), live[i := GraftInode(live[i], s, a)][j].addrs, t)
      == if j == i && t == s then a else Ptr(data, live[j].addrs, t)
    decreases t.Depth()
  {
    var data' := GraftData(data, live[i].addrs, s, a);
    var addrs' := live[i := GraftInode(live[i], s, a)][j].addrs;
    if !t.Root? {
      GraftPtr(data, live, owner, i, s, a, j, t.Parent());
      GraftWord(data, live, owner, i, s, a, j, t);
    }
    hide WordAt, Owned;
  }

  /** One level of GraftPtr. */
  lemma GraftWord(data: Disk, live: seq<Dinode>, owner: map<nat, Owner>, i: nat, s: Slot, a: Uint, j: nat, t: Slot)
    requires CanGraft(data, live, owner, i, s, a) && Allocated(live, j) && !t.Root?
    ensures WordAt(GraftData(data, live[i].addrs, s, a),
      if j == i && t.Parent() == s then a else Ptr(data, live[j].addrs, t.Parent()), t.k)
      == if j == i && t == s then a else Ptr(data, live[j].addrs, t)
  {
    var x := Ptr(data, live[j].addrs, t.Parent());
    if t.k < NINDIRECT { ZerosHoldNoWord(t.k); }
    if !s.Root? {
      var c := Ptr(data, live[i].addrs, s.Parent());
      WordAtAfterSet(data, c, s.k, a, if j == i && t.Parent() == s then a else x, t.k);
      if x == c { NoSharing(data, live, owner, j, t.Parent(), i, s.Parent()); }
    }
    hide Word, SetWord;
  }

  lemma GraftKeepsOwned(data: Disk, live: seq<Dinode>, owner: map<nat, Owner>, i: nat, s: Slot, a: Uint)
    requires CanGraft(data, live, owner, i, s, a)
    ensures Owned(GraftData(data, live[i].addrs, s, a), live[i := GraftInode(live[i], s, a)], owner[a := Owner(i, s)])
  {
    var (data', live') := (GraftData(data, live[i].addrs, s, a), live[i := GraftInode(live[i], s, a)]);
    assert forall b :: b in data' <==> b in data;
    assert forall j: nat :: Allocated(live', j) <==> Allocated(live, j);
    forall j: nat, t | Allocated(live, j)
      ensures Ptr(data', live'[j].addrs, t) == if j == i && t == s then a else Ptr(data, live[j].addrs, t)
    {
      GraftPtr(data, live, owner, i, s, a, j, t);
    }
    hide GraftData, GraftInode, Ptr;
    OwnedWithOneMore(data, live, owner, i, s, a, data', live');
  }

  lemma OwnedWithOneMore(data: Disk, live: seq<Dinode>, owner: map<nat, Owner>, i: nat, s: Slot, a: Uint, data': Disk,
                         live': seq<Dinode>)
    requires Owned(data, live, owner) && a in data && a !in owner && Allocated(live, i)
      && Ptr(data, live[i].addrs, s) == 0
    requires |live'| == |live| && data'.Keys == data.Keys
    requires forall j: nat :: Allocated(live', j) <==> Allocated(live, j)
    requires forall j: nat, t :: Allocated(live, j) ==>
      Ptr(data', live'[j].addrs, t) == if j == i && t == s then a else Ptr(data, live[j].addrs, t)
    ensures Owned(data', live', owner[a := Owner(i, s)])
  {
    hide Ptr;
    var owner' := owner[a := Owner(i, s)];
    forall j: nat, t | Allocated(live', j)
      ensures Holds(owner', Ptr(data', live'[j].addrs, t), j, t)
    {
      assert Holds(owner, Ptr(data, live[j].addrs, t), j, t);
    }
  }

  /** Grafting is invisible in every file: a hole and a zeroed block read alike. */
  lemma GraftKeepsFiles(data: Disk, live: seq<Dinode>, owner: map<nat, Owner>, i: nat, s: Slot, a: Uint, j: nat,
                        bn: nat)
    requires CanGraft(data, live, owner, i, s, a) && Allocated(live, j) && bn < MAXFILE
    ensures FileBlock(GraftData(data, live[i].addrs, s, a), live[i := GraftInode(live[i], s, a)][j].addrs, bn)
      == FileBlock(data, live[j].addrs, bn)
  {
    var t := SlotOf(bn);
    SlotOfFacts(bn);
    GraftPtr(data, live, owner, i, s, a, j, t);
    assert !s.Root? ==> s.Parent().Indirect();
    hide Ptr, SlotOf;
  }

  // ---------- replacing an inode by one with fewer pointers ----------

  /** `d` holds no block number in slot `s`, or the one inode `i` holds there. */
  ghost predicate Within(data: Disk, live: seq<Dinode>, i: nat, d: Dinode, s: Slot)
  {
    d.typ != 0 && Ptr(data, d.addrs, s) != 0 ==>
      Allocated(live, i) && Ptr(data, d.addrs, s) == Ptr(data, live[i].addrs, s)
  }

  /** The blocks that are still owned when inode `i` becomes `d`. */
  ghost function Remaining(data: Disk, owner: map<nat, Owner>, i: nat, d: Dinode): map<nat, Owner>
  {
    map b | b in owner && (owner[b].inum != i || (d.typ != 0 && Ptr(data, d.addrs, owner[b].slot) == b)) :: owner[b]
  }

  /** Freeing, claiming, and forgetting in-memory changes of an inode are all of this shape. */
  lemma ShrinkKeepsOwned(data: Disk, live: seq<Dinode>, owner: map<nat, Owner>, i: nat, d: Dinode)
    requires Owned(data, live, owner) && i < |live|
    requires forall s :: Within(data, live, i, d, s)
    ensures Owned(data, live[i := d], Remaining(data, owner, i, d))
  {
    var (live', owner') := (live[i := d], Remaining(data, owner, i, d));
    hide Ptr;
    forall j: nat, s | Allocated(live', j)
      ensures Holds(owner', Ptr(data, live'[j].addrs, s), j, s)
    {
      assert Within(data, live, i, d, s);
      assert Allocated(live, j) ==> Holds(owner, Ptr(data, live[j].addrs, s), j, s);
    }
  }

  /** Fields other than addrs play no part in ownership while the inode stays allocated. */
  lemma SameAddrsKeepsOwned(data: Disk, live: seq<Dinode>, owner: map<nat, Owner>, i: nat, d: Dinode)
    requires Owned(data, live, owner) && Allocated(live, i) && d.typ != 0 && d.addrs == live[i].addrs
    ensures Owned(data, live[i := d], owner)
  {
    hide Ptr;
    var live' := live[i := d];
    forall j: nat, s | Allocated(live', j)
      ensures Holds(owner, Ptr(data, live'[j].addrs, s), j, s)
    {
      assert Holds(owner, Ptr(data, live[j].addrs, s), j, s);
    }
  }

  lemma EmptyInodeHasNoBlocks(data: Disk, typ: Short, s: Slot)
    requires 0 !in data
    ensures Ptr(data, EmptyInode(typ).addrs, s) == 0
    decreases s.Depth()
  {
    if !s.Root? { EmptyInodeHasNoBlocks(data, typ, s.Parent()); }
  }

  // ---------- file contents ----------

  /** Everything past the size of a file reads as zero. */
  ghost predicate ZeroTail(data: Disk, d: Dinode)
  {
    forall p: nat {:trigger FileByte(data, d.addrs, p)} :: d.size <= p < MAXBYTES ==> FileByte(data, d.addrs, p) == 0
  }

  /** No holes below the size. */
  ghost predicate Dense(data: Disk, d: Dinode)
  {
    forall bn: nat {:trigger SlotOf(bn)} :: bn * BSIZE < d.size ==> Ptr(data, d.addrs, SlotOf(bn)) != 0
  }

  function Content(data: Disk, d: Dinode): seq<Byte>
  {
    seq(d.size, p requires 0 <= p < d.size => FileByte(data, d.addrs, p))
  }

  /** What clients see of an inode. */
  datatype File = Free | File(typ: Short, major: Short, minor: Short, nlink: Short, bytes: seq<Byte>)

  function FileOf(data: Disk, d: Dinode): File
  {
    if d.typ == 0 then Free else File(d.typ, d.major, d.minor, d.nlink, Content(data, d))
  }

  /** The same bytes in every block. */
  ghost predicate SameBlocks(data: Disk, d: Dinode, data': Disk, d': Dinode)
  {
    forall bn: nat {:trigger FileBlock(data', d'.addrs, bn)} :: bn < MAXFILE ==>
      FileBlock(data', d'.addrs, bn) == FileBlock(data, d.addrs, bn)
  }

  lemma SameBlocksSameFile(data: Disk, d: Dinode, data': Disk, d': Dinode)
    requires SameBlocks(data, d, data', d') && d' == d.(addrs := d'.addrs) && d.size <= MAXBYTES
    ensures FileOf(data', d') == FileOf(data, d)
    ensures ZeroTail(data, d) ==> ZeroTail(data', d')
  {
    hide FileBlock;
    forall p: nat | p < MAXBYTES
      ensures FileByte(data', d'.addrs, p) == FileByte(data, d.addrs, p)
    {
      assert p / BSIZE < MAXFILE;
    }
    assert Content(data', d') == Content(data, d);
  }

  // ---------- the disk copy of an inode that memory has run ahead of ----------

  /** The on-disk inode `d0` may lack roots that bmap has given the in-memory inode `d`,
      but only roots below which everything still reads as zero. */
  ghost predicate Shadow(data: Disk, d0: Dinode, d: Dinode)
  {
    if d.typ == 0 then d0 == d else
      && d0 == d.(addrs := d0.addrs)
      && (forall k :: 0 <= k < NADDR ==> d0.addrs[k] == 0 || d0.addrs[k] == d.addrs[k])
      && (forall bn: nat {:trigger FileBlock(data, d.addrs, bn)} ::
         bn < MAXFILE && d0.addrs[RootOf(SlotOf(bn))] == 0 ==>
            FileBlock(data, d.addrs, bn) == Zeros())
  }

  lemma NoRootNoPtr(data: Disk, addrs: seq<Uint>, s: Slot)
    requires |addrs| == NADDR && 0 !in data
    requires RootOf(s) < NADDR ==> addrs[RootOf(s)] == 0
    ensures Ptr(data, addrs, s) == 0
    decreases s.Depth()
  {
    if !s.Root? { NoRootNoPtr(data, addrs, s.Parent()); }
  }

  lemma SameRootSamePtr(data: Disk, addrs: seq<Uint>, addrs': seq<Uint>, s: Slot)
    requires |addrs| == |addrs'| == NADDR
    requires RootOf(s) < NADDR ==> addrs[RootOf(s)] == addrs'[RootOf(s)]
    ensures Ptr(data, addrs, s) == Ptr(data, addrs', s)
    decreases s.Depth()
  {
    if !s.Root? { SameRootSamePtr(data, addrs, addrs', s.Parent()); }
  }

  lemma ShadowOfItself(data: Disk, d: Dinode)
    requires 0 !in data
    ensures Shadow(data, d, d)
  {
    forall bn: nat | bn < MAXFILE && d.addrs[RootOf(SlotOf(bn))] == 0
      ensures FileBlock(data, d.addrs, bn) == Zeros()
    {
      NoRootNoPtr(data, d.addrs, SlotOf(bn));
    }
    hide Ptr, SlotOf;
  }

  /** Forgetting the in-memory copy loses block numbers but not a single byte. */
  lemma ShadowSameFile(data: Disk, d0: Dinode, d: Dinode)
    requires Shadow(data, d0, d) && 0 !in data && d.size <= MAXBYTES
    ensures SameBlocks(data, d, data, d0) && FileOf(data, d0) == FileOf(data, d)
    ensures ZeroTail(data, d) ==> ZeroTail(data, d0)
  {
    forall bn: nat | bn < MAXFILE
      ensures FileBlock(data, d0.addrs, bn) == FileBlock(data, d.addrs, bn)
    {
      var s := SlotOf(bn);
      if d0.addrs[RootOf(s)] == 0 {
        NoRootNoPtr(data, d0.addrs, s);
      } else {
        SameRootSamePtr(data, d0.addrs, d.addrs, s);
      }
      hide Ptr, SlotOf;
    }
    SameBlocksSameFile(data, d, data, d0);
  }

  lemma ShadowWithin(data: Disk, live: seq<Dinode>, i: nat, d0: Dinode, s: Slot)
    requires i < |live| && Shadow(data, d0, live[i]) && 0 !in data
    ensures Within(data, live, i, d0, s)
  {
    var k := RootOf(s);
    if live[i].typ != 0 && k < NADDR {
      if d0.addrs[k] == 0 {
        NoRootNoPtr(data, d0.addrs, s);
      } else {
        SameRootSamePtr(data, d0.addrs, live[i].addrs, s);
      }
    }
    hide FileBlock;
  }

  /** A shadow stays one while bmap fills empty roots and file bytes do not change. */
  lemma ShadowStable(data: Disk, d0: Dinode, d: Dinode, data': Disk, d': Dinode)
    requires Shadow(data, d0, d) && d.typ != 0 && d' == d.(addrs := d'.addrs)
    requires forall k :: 0 <= k < NADDR ==> d.addrs[k] == 0 || d'.addrs[k] == d.addrs[k]
    requires SameBlocks(data, d, data', d')
    ensures Shadow(data', d0, d')
  {
    hide FileBlock, SlotOf;
  }
}
