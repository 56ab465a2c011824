/** How much space a write takes, and when there is enough of it: a write is complete if and
    only if the missing blocks on the way to its range are no more than the free ones. */
module Space {
  import opened Layout
  import opened BlockTree
  import opened Invariant

  /** The data blocks not in use. */
  function Unmarked(st: State): set<nat> { st.data.Keys - st.marked }

  /** Those of `slots` that hold no block number in inode `i`. */
  function Wanted(st: State, i: nat, slots: set<Slot>): set<Slot>
  {
    set s | s in slots && i < |st.live| && Ptr(st.data, st.live[i].addrs, s) == 0
  }

  /** The blocks that came into use. */
  function Taken(st: State, st': State): set<nat> { st'.marked - st.marked }

  ghost predicate Grew(st: State, st': State, i: nat, slots: set<Slot>)
  {
    TreesOk(st) && TreesOk(st') && Hung(st, st', i, slots) && Allocated(st.live, i) && Allocated(st'.live, i)
  }

  /** Where there was a block there still is the same. */
  lemma GrewKeeps(st: State, st': State, i: nat, slots: set<Slot>, s: Slot)
    requires Grew(st, st', i, slots) && Ptr(st.data, st.live[i].addrs, s) != 0
    ensures Ptr(st'.data, st'.live[i].addrs, s) == Ptr(st.data, st.live[i].addrs, s)
  {
    var b := Ptr(st.data, st.live[i].addrs, s);
    hide Ptr;
    assert Holds(st.owner, b, i, s);
    assert b in st.owner && st'.owner[b] == Owner(i, s);
  }

  /** Nothing changes for the other inodes. */
  lemma OthersKeepPointers(st: State, st': State, i: nat, slots: set<Slot>, j: nat, s: Slot)
    requires Grew(st, st', i, slots) && j != i && Allocated(st.live, j)
    ensures Allocated(st'.live, j) && Ptr(st'.data, st'.live[j].addrs, s) == Ptr(st.data, st.live[j].addrs, s)
  {
    var (b, b') := (Ptr(st.data, st.live[j].addrs, s), Ptr(st'.data, st'.live[j].addrs, s));
    hide Ptr;
    assert st'.live[j] == st.live[j];
    assert Holds(st.owner, b, j, s) && Holds(st'.owner, b', j, s);
    assert b' != 0 ==> st'.owner[b'].inum != i;
    assert b' != 0 && b' !in st.owner ==> NewIn(st, st', b', i, slots);
  }

  /** A block that came into use sits in a slot that was empty. */
  lemma TakenIsWanted(st: State, st': State, i: nat, slots: set<Slot>, b: nat)
    requires Grew(st, st', i, slots) && b in Taken(st, st')
    ensures b in st.data && b in st'.owner && st'.owner[b].inum == i && st'.owner[b].slot in Wanted(st, i, slots)
    ensures Ptr(st'.data, st'.live[i].addrs, st'.owner[b].slot) == b
  {
    hide Ptr;
    assert b in st'.marked && b in st'.owner && NewIn(st, st', b, i, slots);
    var s := st'.owner[b].slot;
    assert Ptr(st'.data, st'.live[i].addrs, s) == b && b !in st.owner;
    var a := Ptr(st.data, st.live[i].addrs, s);
    assert Holds(st.owner, a, i, s);
    if a != 0 { GrewKeeps(st, st', i, slots, s); }
  }

  /** The slots the new blocks sit in. */
  function SlotsOf(owner: map<nat, Owner>, blocks: set<nat>): set<Slot>
  {
    set b | b in blocks && b in owner :: owner[b].slot
  }

  lemma {:induction false} OneSlotEach(owner: map<nat, Owner>, blocks: set<nat>)
    requires blocks <= owner.Keys
    requires forall b, c :: b in blocks && c in blocks && owner[b].slot == owner[c].slot ==> b == c
    ensures |SlotsOf(owner, blocks)| == |blocks|
  {
    if blocks != {} {
      var b :| b in blocks;
      OneSlotEach(owner, blocks - {b});
      assert SlotsOf(owner, blocks) == SlotsOf(owner, blocks - {b}) + {owner[b].slot};
    }
  }

  lemma {:induction false} SlotSubset(a: set<Slot>, b: set<Slot>)
    requires a <= b
    ensures |a| <= |b| && (|a| == |b| ==> a == b)
  {
    if a != {} {
      var x :| x in a;
      SlotSubset(a - {x}, b - {x});
    }
  }

  /** As many blocks come into use as slots are filled. */
  lemma TakenAreFilled(st: State, st': State, i: nat, slots: set<Slot>)
    requires Grew(st, st', i, slots)
    ensures |SlotsOf(st'.owner, Taken(st, st'))| == |Taken(st, st')|
    ensures SlotsOf(st'.owner, Taken(st, st')) <= Wanted(st, i, slots)
    ensures forall s :: s in Wanted(st, i, slots) ==>
      (s in SlotsOf(st'.owner, Taken(st, st')) <==> Ptr(st'.data, st'.live[i].addrs, s) != 0)
  {
    var taken := Taken(st, st');
    forall b | b in taken
      ensures b in st'.owner && st'.owner[b].slot in Wanted(st, i, slots) && b != 0
      ensures Ptr(st'.data, st'.live[i].addrs, st'.owner[b].slot) == b
    {
      TakenIsWanted(st, st', i, slots, b);
    }
    hide Ptr;
    OneSlotEach(st'.owner, taken);
    forall s | s in Wanted(st, i, slots) && Ptr(st'.data, st'.live[i].addrs, s) != 0
      ensures s in SlotsOf(st'.owner, taken)
    {
      var b := Ptr(st'.data, st'.live[i].addrs, s);
      assert Holds(st'.owner, b, i, s);
      if b in st.owner { OwnedEarlier(st, i, s, b); }
      assert b in st'.owner && b !in st.owner;
      assert NewIn(st, st', b, i, slots);
    }
  }

  lemma OwnedEarlier(st: State, i: nat, s: Slot, b: nat)
    requires TreesOk(st) && b in st.owner && st.owner[b] == Owner(i, s)
    ensures i < |st.live| && Ptr(st.data, st.live[i].addrs, s) == b != 0
  {
    hide Ptr;
  }

  /** Going to a block takes no more new blocks than there are slots on the way. */
  lemma TakenAtMost(st: State, st': State, i: nat, slots: set<Slot>)
    requires Grew(st, st', i, slots)
    ensures |Taken(st, st')| <= |Wanted(st, i, slots)| <= |slots|
  {
    hide Grew, Ptr;
    TakenAreFilled(st, st', i, slots);
    SlotSubset(SlotsOf(st'.owner, Taken(st, st')), Wanted(st, i, slots));
    SlotSubset(Wanted(st, i, slots), slots);
  }

  lemma PathIsShort(s: Slot)
    ensures |s.Path()| <= 3
  {
  }

  lemma {:induction false} BlockSlotsAtMost(lo: nat, hi: nat)
    requires lo <= hi
    ensures |BlockSlots(lo, hi)| <= 3 * (hi - lo)
  {
    hide SlotOf;
    if lo < hi {
      BlockSlotsAtMost(lo, hi - 1);
      PathIsShort(SlotOf(hi - 1));
    }
  }

  /** bmap takes at most three blocks into use. */
  lemma MapTakesAtMostThree(st: State, st': State, x: nat, i: nat, s: Slot, addr: nat)
    requires Inv(st, x) && Allocated(st.live, i) && Mapped(st, st', x, i, s, addr)
    ensures |Taken(st, st')| <= 3 && (|Unmarked(st)| >= 3 ==> addr != 0)
  {
    assert Grew(st, st', i, s.Path()) by { hide Ptr; assert Grown(st.data, st.live[i], st'.data, st'.live[i]); }
    hide Grew, Inv, Hung, Ptr;
    TakenAtMost(st, st', i, s.Path());
    PathIsShort(s);
    if addr == 0 { MapFailed(st, st', x, i, s); }
  }

  /** When bmap finds no space, a slot on the way is still empty, and fewer than three
      blocks were free. */
  lemma MapFailed(st: State, st': State, x: nat, i: nat, s: Slot)
    requires Grew(st, st', i, s.Path()) && Mapped(st, st', x, i, s, 0)
    ensures |Unmarked(st)| < 3
  {
    MappedZero(st, st', x, i, s);
    assert s in Wanted(st, i, s.Path()) && Ptr(st'.data, st'.live[i].addrs, s) == 0;
    hide Inv, Evolves, Ptr, Hung;
    TakenAreFilled(st, st', i, s.Path());
    FullTakesAll(st, st', i, s.Path());
    hide Grew;
    SlotSubset(SlotsOf(st'.owner, Taken(st, st')), Wanted(st, i, s.Path()));
    SlotSubset(Wanted(st, i, s.Path()), s.Path());
    PathIsShort(s);
  }

  lemma FullTakesAll(st: State, st': State, i: nat, slots: set<Slot>)
    requires Grew(st, st', i, slots)
    ensures Taken(st, st') <= Unmarked(st)
    ensures FullDisk(st') ==> Taken(st, st') == Unmarked(st)
  {
    forall b | b in Taken(st, st') ensures b in Unmarked(st) { TakenIsWanted(st, st', i, slots, b); }
    hide Ptr;
  }

  // ---------- how many slots there are on the way ----------

  /** Slot `s` is on the way to one of the blocks from `lo` up to `hi`. */
  predicate OnTheWay(s: Slot, lo: nat, hi: nat)
  {
    match s
    case Root(k) => (k < 11 && lo <= k < hi) || (k == 11 && lo < 267 && hi > 11) || (k == 12 && hi > 267)
    case Entry(k) => k < 256 && lo <= 11 + k < hi
    case Mid(k) => lo < 267 + 256 * (k + 1) && 267 + 256 * k < hi
    case Leaf(m, k) => k < 256 && lo <= 267 + 256 * m + k < hi
  }

  lemma OnTheWayToOne(s: Slot, bn: nat)
    ensures s in SlotOf(bn).Path() <==> OnTheWay(s, bn, bn + 1)
  {
  }

  lemma {:induction false} OnTheWayIff(s: Slot, lo: nat, hi: nat)
    requires lo < hi
    ensures s in BlockSlots(lo, hi) <==> OnTheWay(s, lo, hi)
  {
    OnTheWayToOne(s, hi - 1);
    hide SlotOf;
    if lo < hi - 1 {
      OnTheWayIff(s, lo, hi - 1);
    } else {
      assert BlockSlots(lo, hi - 1) == {};
    }
  }

  lemma InBlockSlots(s: Slot, lo: nat, hi: nat)
    ensures s in BlockSlots(lo, hi) <==> lo < hi && OnTheWay(s, lo, hi)
  {
    if lo < hi { OnTheWayIff(s, lo, hi); }
  }

  lemma CountOfTwo(a: set<Slot>, s: Slot, t: Slot)
    requires s !in a && s != t
    ensures |a + {s, t}| == |a| + 1 + (if t in a then 0 else 1)
  {
    assert a + {s, t} == if t in a then a + {s} else a + {s} + {t};
  }

  lemma CountOfThree(a: set<Slot>, s: Slot, t: Slot, u: Slot)
    requires s !in a && s != t && s != u && t != u
    ensures |a + {s, t, u}| == |a| + 1 + (if t in a then 0 else 1) + (if u in a then 0 else 1)
  {
    CountOfTwo(a, s, t);
    assert a + {s, t, u} == if u in a then a + {s, t} else a + {s, t} + {u};
  }

  /** Of a path one slot is new, the others if the blocks so far have not come there yet. */
  lemma NewOnTheWay(lo: nat, bn: nat)
    requires lo <= bn
    ensures |BlockSlots(lo, bn + 1)| == |BlockSlots(lo, bn)| + 1
      + (if 11 <= bn < 267 && (bn == 11 || bn == lo) then 1 else 0)
      + (if bn >= 267 && (bn == 267 || bn == lo) then 1 else 0)
      + (if bn >= 267 && ((bn - 267) % 256 == 0 || bn == lo) then 1 else 0)
  {
    var (before, s) := (BlockSlots(lo, bn), SlotOf(bn));
    assert BlockSlots(lo, bn + 1) == before + s.Path();
    InBlockSlots(s, lo, bn);
    hide BlockSlots;
    if bn >= 267 {
      InBlockSlots(s.Parent(), lo, bn);
      InBlockSlots(Root(12), lo, bn);
      CountOfThree(before, s, s.Parent(), Root(12));
    } else if bn >= 11 {
      InBlockSlots(Root(11), lo, bn);
      CountOfTwo(before, s, Root(11));
    }
  }

  /** How many slots there are on the way to consecutive blocks: one for each of them, one for
      the indirect block if they come to it, and if they come to the double-indirect block one
      for it and one for each group of 256 blocks below it that they touch. */
  lemma {:induction false} CountOfWays(lo: nat, hi: nat)
    requires lo < hi
    ensures |BlockSlots(lo, hi)| == hi - lo + (if lo < 267 && hi > 11 then 1 else 0)
      + (if hi > 267 then 2 + (hi - 1 - 267) / 256 - (if lo < 267 then 0 else (lo - 267) / 256) else 0)
  {
    if lo < hi - 1 {
      CountOfWays(lo, hi - 1);
    } else {
      assert BlockSlots(lo, hi - 1) == {};
    }
    NewOnTheWay(lo, hi - 1);
  }

  // ---------- writes ----------

  /** No slot on the way to a mapped range is empty. */
  lemma {:induction false} MappedBlocksHaveWays(data: Disk, addrs: seq<Uint>, lo: nat, hi: nat)
    requires 0 !in data && forall bn: nat {:trigger SlotOf(bn)} :: lo <= bn < hi ==> Ptr(data, addrs, SlotOf(bn)) != 0
    ensures forall s :: s in BlockSlots(lo, hi) ==> Ptr(data, addrs, s) != 0
  {
    if lo < hi {
      MappedBlocksHaveWays(data, addrs, lo, hi - 1);
      WayIsMapped(data, addrs, SlotOf(hi - 1));
      hide Ptr, SlotOf;
    }
  }

  lemma WayIsMapped(data: Disk, addrs: seq<Uint>, s: Slot)
    requires 0 !in data && Ptr(data, addrs, s) != 0
    ensures forall t :: t in s.Path() ==> Ptr(data, addrs, t) != 0
  {
  }

  lemma MappedRangeHasWays(data: Disk, d: Dinode, off: nat, n: nat)
    requires 0 !in data && RangeMapped(data, d, off, n)
    ensures forall s :: s in SlotsIn(off, n) ==> Ptr(data, d.addrs, s) != 0
  {
    hide Ptr, SlotOf;
    if n > 0 { MappedBlocksHaveWays(data, d.addrs, off / BSIZE, (off + n - 1) / BSIZE + 1); }
  }

  lemma HoleIsWanted(st: State, st': State, i: nat, off: nat, n: nat, p: nat)
    requires Grew(st, st', i, SlotsIn(off, n)) && off <= p < off + n && AtHole(st', i, p)
    ensures SlotOf(p / BSIZE) in Wanted(st, i, SlotsIn(off, n))
  {
    PathInRange(off, n, p);
    var s := SlotOf(p / BSIZE);
    hide SlotOf, SlotsIn, Ptr;
    if Ptr(st.data, st.live[i].addrs, s) != 0 { GrewKeeps(st, st', i, SlotsIn(off, n), s); }
  }

  /** What is on the way to a range is complete afterwards if and only if there were as many
      free blocks as missing ones; and then exactly the missing ones have come into use. */
  lemma FitsIff(st: State, st': State, i: nat, off: nat, n: nat, done: bool, p: nat)
    requires Grew(st, st', i, SlotsIn(off, n))
    requires done ==> i < |st'.live| && RangeMapped(st'.data, st'.live[i], off, n)
    requires !done ==> FullDisk(st') && off <= p < off + n && AtHole(st', i, p)
    ensures done <==> |Wanted(st, i, SlotsIn(off, n))| <= |Unmarked(st)|
    ensures done ==> |Taken(st, st')| == |Wanted(st, i, SlotsIn(off, n))|
  {
    var (slots, filled) := (SlotsIn(off, n), SlotsOf(st'.owner, Taken(st, st')));
    assert 0 !in st'.data;
    if done { MappedRangeHasWays(st'.data, st'.live[i], off, n); } else { HoleIsWanted(st, st', i, off, n, p); }
    TakenAreFilled(st, st', i, slots);
    FullTakesAll(st, st', i, slots);
    hide Grew, Ptr, SlotsIn, SlotOf, RangeMapped, FullDisk;
    SlotSubset(filled, Wanted(st, i, slots));
    SubsetCard(Taken(st, st'), Unmarked(st));
    if done { assert filled == Wanted(st, i, slots); }
  }

  lemma WriteGrew(st: State, st': State, i: nat, off: Uint, src: seq<Byte>, r: int)
    requires Inv(st, 0) && !Refused(off, |src|) && WriteOk(st, st', i, off, src, r)
    ensures Grew(st, st', i, SlotsIn(off, |src|))
  {
    TypeOfFile(st, i);
    TypeOfFile(st', i);
    hide TableOk, FilesOk, Owned, Hung, SlotsIn, RangeMapped, Splice;
  }

  /** writei writes everything if and only if the blocks missing on the way to its range are
      no more than the free blocks of the disk. */
  lemma WriteFitsIff(st: State, st': State, i: nat, off: Uint, src: seq<Byte>, r: int)
    requires Inv(st, 0) && src != [] && !Refused(off, |src|) && WriteOk(st, st', i, off, src, r)
    ensures r == |src| <==> |Wanted(st, i, SlotsIn(off, |src|))| <= |Unmarked(st)|
    ensures r == |src| ==> |Taken(st, st')| == |Wanted(st, i, SlotsIn(off, |src|))|
  {
    WriteGrew(st, st', i, off, src, r);
    hide Inv, Grew, Hung, SlotsIn, RangeMapped, Splice, AtHole, FullDisk;
    FitsIff(st, st', i, off, |src|, r == |src|, off + r);
  }

  /** A file without blocks has none on the way to any. */
  lemma {:induction false} NoBlocksAtAll(data: Disk, addrs: seq<Uint>, s: Slot)
    requires 0 !in data && forall k :: 0 <= k < |addrs| ==> addrs[k] == 0
    ensures Ptr(data, addrs, s) == 0
    decreases s.Depth()
  {
    if !s.Root? { NoBlocksAtAll(data, addrs, s.Parent()); }
  }

  lemma NoBlocksAllWanted(st: State, i: nat, slots: set<Slot>)
    requires Inv(st, 0) && i < |st.live| && forall k :: 0 <= k < 13 ==> st.live[i].addrs[k] == 0
    ensures Wanted(st, i, slots) == slots
  {
    assert 0 !in st.data by { hide Ptr, TableOk, FilesOk; }
    hide Inv;
    forall s | s in slots ensures s in Wanted(st, i, slots) { NoBlocksAtAll(st.data, st.live[i].addrs, s); }
  }

  /** How many blocks have to be free for writing to a file that has none yet: one for each
      block written, one more if the range comes to the indirect block, and if it comes to the
      double-indirect block one more for it and one for each group of 256 blocks it touches. */
  lemma FirstWriteFitsIff(st: State, st': State, i: nat, off: Uint, src: seq<Byte>, r: int)
    requires Inv(st, 0) && src != [] && off + |src| <= 67382272 && WriteOk(st, st', i, off, src, r)
    requires i < |st.live| && forall k :: 0 <= k < 13 ==> st.live[i].addrs[k] == 0
    ensures
      var (lo, hi) := (off / 1024, (off + |src| - 1) / 1024 + 1);
      var needed := hi - lo + (if lo < 267 && hi > 11 then 1 else 0)
        + (if hi > 267 then 2 + (hi - 1 - 267) / 256 - (if lo < 267 then 0 else (lo - 267) / 256) else 0);
      r == |src| <==> needed <= |Unmarked(st)|
    ensures off == 273408 && |src| == 2048 ==> (r == 2048 <==> |Unmarked(st)| >= 4)
  {
    hide Inv, WriteOk, BlockSlots, Wanted, Unmarked, Taken;
    assert !Refused(off, |src|);
    WriteFitsIff(st, st', i, off, src, r);
    NoBlocksAllWanted(st, i, SlotsIn(off, |src|));
    CountOfWays(off / 1024, (off + |src| - 1) / 1024 + 1);
  }

  /** Overwriting a file without holes takes no block. */
  lemma OverwriteTakesNothing(st: State, st': State, i: nat, off: Uint, src: seq<Byte>, r: int)
    requires Inv(st, 0) && src != [] && !Refused(off, |src|) && WriteOk(st, st', i, off, src, r)
    requires i in st.solid && i < |st.files| && st.files[i].File? && off + |src| <= |st.files[i].bytes|
    ensures st'.marked == st.marked
  {
    WriteGrew(st, st', i, off, src, r);
    TypeOfFile(st, i);
    SolidIsDense(st, 0, i);
    hide Inv, WriteOk, SlotsIn;
    assert 0 !in st.data by { hide Hung, Ptr; }
    assert st.marked <= st'.marked by { hide TreesOk, Ptr; }
    hide Grew, Dense, RangeMapped;
    DenseIsMapped(st.data, st.live[i], off, |src|);
    MappedRangeHasWays(st.data, st.live[i], off, |src|);
    hide Ptr;
    assert Wanted(st, i, SlotsIn(off, |src|)) == {};
    TakenAtMost(st, st', i, SlotsIn(off, |src|));
    assert Taken(st, st') == {};
    forall b | b in st'.marked ensures b in st.marked { assert b !in Taken(st, st'); }
  }

  lemma DenseIsMapped(data: Disk, d: Dinode, off: nat, n: nat)
    requires Dense(data, d) && off + n <= d.size
    ensures RangeMapped(data, d, off, n)
  {
    hide Ptr, SlotOf;
    forall bn: nat | n > 0 && off / BSIZE <= bn && bn * BSIZE < off + n ensures Ptr(data, d.addrs, SlotOf(bn)) != 0 {
      assert SlotOf(bn) == SlotOf(bn);
    }
  }

  /** readi, too, stops at a hole only if the blocks missing on the way to what it is to read
      are more than the free ones. */
  lemma ReadFitsIff(st: State, st': State, i: nat, off: Uint, n: Uint, dst: seq<Byte>)
    requires Inv(st, 0) && i < |st.files| && st.files[i].File? && ReadOk(st, st', i, off, n, dst)
    ensures var want := ReadCount(|st.files[i].bytes|, off, n);
      && (|dst| == want <==> |Wanted(st, i, SlotsIn(off, want))| <= |Unmarked(st)|)
      && (|dst| == want ==> |Taken(st, st')| == |Wanted(st, i, SlotsIn(off, want))|)
  {
    hide ReadOk, Inv, Grew, SlotsIn, RangeMapped, AtHole, FullDisk, Wanted, Unmarked, Taken, ReadCount;
    var want := ReadCount(|st.files[i].bytes|, off, n);
    ReadGrew(st, st', i, off, n, dst);
    ReadShort(st, st', i, off, n, dst);
    FitsIff(st, st', i, off, want, |dst| == want, off + |dst|);
  }

  lemma ReadShort(st: State, st': State, i: nat, off: Uint, n: Uint, dst: seq<Byte>)
    requires i < |st.files| && st.files[i].File? && ReadOk(st, st', i, off, n, dst)
    ensures |dst| <= ReadCount(|st.files[i].bytes|, off, n)
    ensures i < |st'.live| && RangeMapped(st'.data, st'.live[i], off, |dst|)
    ensures |dst| < ReadCount(|st.files[i].bytes|, off, n) ==> FullDisk(st') && AtHole(st', i, off + |dst|)
  {
    hide Quiet, Hung, RangeMapped, AtHole, FullDisk, ReadCount;
  }

  lemma ReadGrew(st: State, st': State, i: nat, off: Uint, n: Uint, dst: seq<Byte>)
    requires Inv(st, 0) && ReadOk(st, st', i, off, n, dst)
    ensures i < |st.files| && st.files[i].File?
    ensures Grew(st, st', i, SlotsIn(off, ReadCount(|st.files[i].bytes|, off, n)))
  {
    LengthsAgree(st);
    TypeOfFile(st, i);
    QuietFacts(st, st', i);
    hide TableOk, FilesOk, Owned, Hung, SlotsIn, RangeMapped;
  }

  /** A read under which no block is missing changes nothing but the inode table. */
  lemma ReadOfNoHole(st: State, st': State, i: nat, off: Uint, n: Uint, dst: seq<Byte>)
    requires Inv(st, 0) && i < |st.files| && st.files[i].File? && ReadOk(st, st', i, off, n, dst)
    requires Wanted(st, i, SlotsIn(off, ReadCount(|st.files[i].bytes|, off, n))) == {}
    ensures st'.marked == st.marked && st'.owner == st.owner && st'.live == st.live && st'.inodes == st.inodes
    ensures Tidy(st) ==> Tidy(st')
  {
    hide Inv, Grew, Evolves, Hung, ReadOk, Wanted, ReadCount, SlotsIn;
    var slots := SlotsIn(off, ReadCount(|st.files[i].bytes|, off, n));
    ReadGrew(st, st', i, off, n, dst);
    ReadEvolves(st, st', i, off, n, dst);
    TakenAtMost(st, st', i, slots);
    TookNothing(st, st', i, slots);
  }

  lemma ReadEvolves(st: State, st': State, i: nat, off: Uint, n: Uint, dst: seq<Byte>)
    requires ReadOk(st, st', i, off, n, dst)
    ensures Evolves(st, st', 0) && st'.data.Keys == st.data.Keys
  {
    hide Inv, Evolves, SlotsIn, RangeMapped, AtHole, FullDisk, NoLeak;
  }

  /** When no block has come into use, no pointer has changed. */
  lemma TookNothing(st: State, st': State, i: nat, slots: set<Slot>)
    requires Grew(st, st', i, slots) && Evolves(st, st', 0) && Taken(st, st') == {}
    ensures st'.marked == st.marked && st'.owner == st.owner && st'.live == st.live && st'.inodes == st.inodes
  {
    hide Ptr, Evolved;
    forall b | b in st'.marked ensures b in st.marked { assert b !in Taken(st, st'); }
    assert st'.marked == st.marked;
    forall b | b in st'.owner ensures b in st.owner { assert b in st.owner || NewIn(st, st', b, i, slots); }
    assert Grown(st.data, st.live[i], st'.data, st'.live[i]);
    forall k: nat | k < NADDR ensures st'.live[i].addrs[k] == st.live[i].addrs[k] {
      RootPtr(st.data, st.live[i].addrs, k);
      RootPtr(st'.data, st'.live[i].addrs, k);
      var a := Ptr(st'.data, st'.live[i].addrs, Root(k));
      assert Holds(st'.owner, a, i, Root(k));
      if a != 0 {
        OwnedEarlier(st, i, Root(k), a);
      } else if Ptr(st.data, st.live[i].addrs, Root(k)) != 0 {
        GrewKeeps(st, st', i, slots, Root(k));
      }
    }
    assert st'.live[i].addrs == st.live[i].addrs;
  }

  // ---------- writes in several pieces ----------

  /** Of the `n` bytes at `off` of file `t` the first `i` have no holes left, and blocks have
      come into use on the way to the `n` bytes only. */
  ghost predicate Filled(st: State, st': State, t: nat, off: nat, n: nat, i: nat)
  {
    Hung(st, st', t, SlotsIn(off, n)) && t < |st'.live| && RangeMapped(st'.data, st'.live[t], off, i)
  }

  lemma FilledStart(st: State, t: nat, off: nat, n: nat)
    requires t < |st.live|
    ensures Filled(st, st, t, off, n, 0)
  {
    HungItself(st, t, SlotsIn(off, n));
    hide SlotsIn, Hung;
  }

  /** One piece more. */
  lemma FilledMore(st: State, st1: State, st2: State, t: nat, off: nat, n: nat, i: nat, piece: seq<Byte>, w: nat)
    requires Inv(st1, 0) && Filled(st, st1, t, off, n, i) && i + |piece| <= n && piece != []
    requires off + i < 0x1_0000_0000 && !Refused(off + i, |piece|) && WriteOk(st1, st2, t, off + i, piece, w)
    ensures w <= |piece| && Filled(st, st2, t, off, n, i + w)
    ensures w < |piece| ==> FullDisk(st2) && AtHole(st2, t, off + i + w)
  {
    hide WriteOk, Hung, SlotsIn, FullDisk, AtHole, Inv, RangeMapped, Grew, Refused;
    ShortWrite(st1, st2, t, off + i, piece, w);
    WriteGrew(st1, st2, t, off + i, piece, w);
    SlotsWithin(off, n, off + i, |piece|);
    HungTransitive(st, st1, st2, t, SlotsIn(off, n), SlotsIn(off + i, |piece|), SlotsIn(off, n));
    RangeJoined(st1, st2, t, off, i, w, SlotsIn(off + i, |piece|));
  }

  lemma ShortWrite(st: State, st': State, i: nat, off: Uint, src: seq<Byte>, r: int)
    requires !Refused(off, |src|) && WriteOk(st, st', i, off, src, r)
    ensures 0 <= r <= |src| && (r < |src| ==> FullDisk(st') && AtHole(st', i, off + r))
    ensures Hung(st, st', i, SlotsIn(off, |src|)) && i < |st'.live| && RangeMapped(st'.data, st'.live[i], off, r)
  {
    hide Inv, Hung, SlotsIn, RangeMapped, FullDisk, AtHole, Splice;
  }

  lemma RangeJoined(st1: State, st2: State, t: nat, off: nat, i: nat, w: nat, slots: set<Slot>)
    requires Grew(st1, st2, t, slots) && RangeMapped(st1.data, st1.live[t], off, i)
    requires RangeMapped(st2.data, st2.live[t], off + i, w)
    ensures RangeMapped(st2.data, st2.live[t], off, i + w)
  {
    forall bn: nat | i + w > 0 && off / BSIZE <= bn && bn * BSIZE < off + i + w
      ensures Ptr(st2.data, st2.live[t].addrs, SlotOf(bn)) != 0
    {
      if i > 0 && bn * BSIZE < off + i {
        assert Ptr(st1.data, st1.live[t].addrs, SlotOf(bn)) != 0;
        GrewKeeps(st1, st2, t, slots, SlotOf(bn));
      } else {
        assert (off + i) / BSIZE <= bn && bn * BSIZE < (off + i) + w;
        assert Ptr(st2.data, st2.live[t].addrs, SlotOf(bn)) != 0;
      }
    }
    hide Ptr, SlotOf, Grew;
  }

  /** The ways to a part of a range are among the ways to the range. */
  lemma SlotsWithin(off: nat, n: nat, o: nat, m: nat)
    requires off <= o && o + m <= off + n
    ensures SlotsIn(o, m) <= SlotsIn(off, n)
  {
    hide BlockSlots;
    if m > 0 { BlocksWithin(off / BSIZE, (off + n - 1) / BSIZE + 1, o / BSIZE, (o + m - 1) / BSIZE + 1); }
  }

  lemma {:induction false} BlocksWithin(lo: nat, hi: nat, l: nat, h: nat)
    requires lo <= l <= h <= hi
    ensures BlockSlots(l, h) <= BlockSlots(lo, hi)
  {
    hide SlotOf;
    if l < h {
      BlocksWithin(lo, hi, l, h - 1);
      PathInBlocks(lo, hi, h - 1);
    }
  }
}
