/** The inode layer of xv6fs/src/fs.c: the in-memory inode table, bmap, itrunc, readi,
    writei, and the life cycle of inodes. */
module FileSystem {
  import opened Layout
  import opened BlockTree
  import opened BlockStore
  import opened Invariant

  /** The inode with its first `n` addrs zeroed. */
  function Cleared(d: Dinode, n: nat): Dinode
  {
    d.(addrs := seq(NADDR, k requires 0 <= k < NADDR => if k < n then 0 else d.addrs[k]))
  }

  lemma PrefixGrows(src: seq<Byte>, tot: nat, m: nat)
    requires tot + m <= |src|
    ensures src[..tot] + src[tot..][..m] == src[..tot + m]
  {
  }

  function EmptyTable(): seq<MemInode> { seq(NINODE, _ => MemInode(0, 0, false, EmptyInode(0))) }

  class FileSystem {
    const store: Store
    var itable: seq<MemInode>
    ghost var slots: Slots
    ghost var live: seq<Dinode>
    ghost var owner: map<nat, Owner>
    ghost var files: seq<File>
    ghost var solid: set<nat>

    ghost function St(): State
      reads this, store
    {
      State(store.data, store.marked, store.inodes, itable, slots, live, owner, files, solid)
    }

    /** The invariant, with inode `x` (if not 0) in the middle of an update. */
    ghost predicate Valid(x: nat)
      reads this, store
    {
      store.Valid() && Inv(St(), x)
    }

    /** `ip` points at the table entry of the loaded inode `i`. */
    ghost predicate At(ip: nat, i: nat)
      reads this
    {
      i in slots && slots[i] == ip && ip < |itable| && itable[ip].valid
    }

    /** A file system whose inode table is empty, as after iinit. */
    constructor (s: Store, ghost o: map<nat, Owner>, ghost f: seq<File>, ghost noHoles: set<nat>)
      requires s.Valid() && Inv(State(s.data, s.marked, s.inodes, EmptyTable(), map[], s.inodes, o, f, noHoles), 0)
      ensures Valid(0) && store == s && itable == EmptyTable() && slots == map[]
      ensures live == s.inodes && owner == o && files == f && solid == noHoles
    {
      store, itable := s, EmptyTable();
      slots, live, owner, files, solid := map[], s.inodes, o, f, noHoles;
    }

    // ---------- bmap ----------

    /** The block number in addrs[k]; a block is allocated and its number stored if there is
        none. */
    method RootBlock(ip: nat, k: nat, ghost i: nat, ghost x: nat) returns (addr: nat)
      requires store.Valid() && CanMap(St(), x, i, Root(k)) && k < NADDR && i in slots && slots[i] == ip
        && |store.pins| < NBUF
      modifies this, store
      ensures store.Valid() && store.pins == old(store.pins)
      ensures Mapped(old(St()), St(), x, i, Root(k), addr)
    {
      hide Views, CanMap, Mapped, CanGraft;
      CanMapFacts(St(), x, i, Root(k));
      addr := itable[ip].d.addrs[k];
      if addr == 0 {
        ghost var st := St();
        addr := store.BAlloc();
        if addr == 0 {
          assert FullDisk(st) by { store.Facts(); }
        } else {
          assert addr < 0x1_0000_0000 by { store.Facts(); }
          AllocGraft(st, x, i, Root(k), addr);
          itable := itable[ip := itable[ip].(d := itable[ip].d.(addrs := itable[ip].d.addrs[k := addr]))];
          live := live[i := GraftInode(live[i], Root(k), addr)];
          owner := owner[addr := Owner(i, Root(k))];
          assert St() == WithGraft(WithFresh(st, addr), i, Root(k), addr);
        }
      }
    }

    /** Entry `k` of the pointer block `b`, which is pinned; a block is allocated and its number
        stored in the entry if there is none. */
    method EntryBlock(b: nat, k: nat, ghost s: Slot, ghost i: nat, ghost x: nat) returns (addr: nat)
      requires store.Valid() && CanMap(St(), x, i, s) && |store.pins| < NBUF && b in store.pins
      requires !s.Root? && s.InRange() && s.k == k && i < |live| && b == Ptr(store.data, live[i].addrs, s.Parent())
      modifies this, store
      ensures store.Valid() && store.pins == old(store.pins)
      ensures Mapped(old(St()), St(), x, i, s, addr)
    {
      hide Views, CanMap, Mapped, Word, SetWord, Ptr, WithGraft;
      ghost var st := St();
      CanMapFacts(st, x, i, s);
      var a := store.Fetch(b);
      addr := Word(a, k);
      EntryIs(st.data, st.live[i].addrs, s);
      if addr == 0 {
        addr := store.BAlloc();
        store.Facts();
        if addr != 0 {
          a := store.Fetch(b);
          store.Replace(b, SetWord(a, k, addr));
          owner := owner[addr := Owner(i, s)];
          EntryGrafted(st, x, i, s, addr, b, store.data);
          AllocGraft(st, x, i, s, addr);
          assert St() == WithFresh(st, addr).(data := store.data, owner := owner);
        }
      }
    }

    /** The pointer block `b` is read, asked for its entry, and released. */
    method LastLevel(b: nat, k: nat, ghost s: Slot, ghost i: nat, ghost x: nat) returns (addr: nat)
      requires store.Valid() && CanMap(St(), x, i, s) && |store.pins| + 2 <= NBUF
      requires !s.Root? && s.InRange() && s.k == k && i < |live| && b == Ptr(store.data, live[i].addrs, s.Parent())
      modifies this, store
      ensures store.Valid() && store.pins == old(store.pins)
      ensures Mapped(old(St()), St(), x, i, s, addr)
    {
      hide Views, CanMap, Mapped, Ptr;
      store.BRead(b);
      addr := EntryBlock(b, k, s, i, x);
      store.BRelse(b);
    }

    /** The single-indirect branch of bmap, for the word `n` of block addrs[NDIRECT]. */
    method BMapIndirect(ip: nat, n: nat, ghost i: nat, ghost x: nat) returns (addr: nat)
      requires store.Valid() && Inv(St(), x) && At(ip, i) && Allocated(live, i) && n < NINDIRECT
        && |store.pins| + 2 <= NBUF
      requires i in solid && Ptr(store.data, live[i].addrs, Entry(n)) == 0 ==> x == i
      modifies this, store
      ensures store.Valid() && store.pins == old(store.pins)
      ensures Mapped(old(St()), St(), x, i, Entry(n), addr)
    {
      hide Views, Inv, CanMap, Mapped, Ptr;
      ghost var st := St();
      CanMapRoot(st, x, i, Entry(n));
      NoZeroBlock(st, x);
      var bp := RootBlock(ip, NDIRECT, i, x);
      ghost var st1 := St();
      if bp == 0 {
        MappedFails(st, st1, x, i, Entry(n));
        return 0;
      }
      CanMapBelow(st, st1, x, i, Entry(n), bp);
      MappedFacts(st, st1, x, i, Root(NDIRECT), bp);
      addr := LastLevel(bp, n, Entry(n), i, x);
      MappedTransitive(st, st1, St(), x, i, Entry(n), bp, addr);
    }

    /** The double-indirect branch of bmap; up to two pins are held here. */
    method BMapDouble(ip: nat, n: nat, ghost i: nat, ghost x: nat) returns (addr: nat)
      requires store.Valid() && Inv(St(), x) && At(ip, i) && Allocated(live, i)
      requires n < NINDIRECT * NINDIRECT && |store.pins| + 3 <= NBUF
      requires i in solid && Ptr(store.data, live[i].addrs, Leaf(n / NINDIRECT, n % NINDIRECT)) == 0 ==> x == i
      modifies this, store
      ensures store.Valid() && store.pins == old(store.pins)
      ensures Mapped(old(St()), St(), x, i, Leaf(n / NINDIRECT, n % NINDIRECT), addr)
    {
      hide Views, Inv, CanMap, Mapped, Ptr;
      ghost var (st, mid, s) := (St(), Mid(n / NINDIRECT), Leaf(n / NINDIRECT, n % NINDIRECT));
      CanMapRoot(st, x, i, s);
      NoZeroBlock(st, x);
      var bp := RootBlock(ip, NDIRECT + 1, i, x);
      ghost var st1 := St();
      if bp == 0 {
        MappedFails(st, st1, x, i, mid);
        MappedFails(st, st1, x, i, s);
        return 0;
      }
      CanMapBelow(st, st1, x, i, mid, bp);
      MappedFacts(st, st1, x, i, Root(NDIRECT + 1), bp);
      store.BRead(bp);
      var bp2 := EntryBlock(bp, n / NINDIRECT, mid, i, x);
      ghost var st2 := St();
      MappedTransitive(st, st1, st2, x, i, mid, bp, bp2);
      if bp2 == 0 {
        store.BRelse(bp);
        MappedFails(st, st2, x, i, s);
        return 0;
      }
      CanMapBelow(st, st2, x, i, s, bp2);
      MappedFacts(st, st2, x, i, mid, bp2);
      addr := LastLevel(bp2, n % NINDIRECT, s, i, x);
      store.BRelse(bp);
      MappedTransitive(st, st2, St(), x, i, s, bp2, addr);
    }

    /** The disk address of the bn-th block of inode `i`, allocating it and the pointer
        blocks above it if needed; 0 when the disk is full. */
    method BMap(ip: nat, bn: nat, ghost i: nat, ghost x: nat) returns (addr: nat)
      requires store.Valid() && Inv(St(), x) && At(ip, i) && Allocated(live, i) && bn < MAXFILE
        && |store.pins| + 3 <= NBUF
      requires i in solid && Ptr(store.data, live[i].addrs, SlotOf(bn)) == 0 ==> x == i
      modifies this, store
      ensures store.Valid() && store.pins == old(store.pins)
      ensures Mapped(old(St()), St(), x, i, SlotOf(bn), addr) && i < |live|
      ensures bn < 11 ==> addr == live[i].addrs[bn]
      ensures 11 <= bn < 267 ==> addr == WordAt(store.data, live[i].addrs[11], bn - 11)
      ensures 267 <= bn ==>
        addr == WordAt(store.data, WordAt(store.data, live[i].addrs[12], (bn - 267) / 256), (bn - 267) % 256)
    {
      hide Views, Inv, CanMap, Mapped, Ptr, WordAt;
      if bn < NDIRECT {
        CanMapRoot(St(), x, i, SlotOf(bn));
        addr := RootBlock(ip, bn, i, x);
      } else if bn - NDIRECT < NINDIRECT {
        addr := BMapIndirect(ip, bn - NDIRECT, i, x);
      } else {
        addr := BMapDouble(ip, bn - NDIRECT - NINDIRECT, i, x);
      }
      MappedFacts(old(St()), St(), x, i, SlotOf(bn), addr);
      PlaceOfBlock(store.data, live[i].addrs, bn);
    }

    // ---------- readi and writei ----------

    /** One round of readi's loop: copy from the block at `off`, at most to its end. */
    method CopyOut(ip: nat, off: nat, n: nat, ghost i: nat) returns (addr: nat, chunk: seq<Byte>)
      requires store.Valid() && Inv(St(), 0) && At(ip, i) && |store.pins| + 3 <= NBUF && 0 < n
      requires i < |files| && files[i].File? && off + n <= |files[i].bytes|
      modifies this, store
      ensures store.Valid() && store.pins == old(store.pins) && Quiet(old(St()), St(), i)
      ensures addr == 0 ==> i !in solid && FullDisk(St()) && AtHole(St(), i, off)
      ensures addr != 0 ==> 0 < |chunk| <= n && chunk == old(files)[i].bytes[off..off + |chunk|]
      ensures addr != 0 ==> off % BSIZE + |chunk| <= BSIZE && !AtHole(St(), i, off)
      ensures Hung(old(St()), St(), i, SlotOf(off / BSIZE).Path())
    {
      hide Views, Inv, Quiet, Mapped, SlotOf, Ptr, Hung, WordAt, FullDisk, AtHole;
      ghost var st := St();
      QuietStart(st, i);
      if i in solid { SolidIsMapped(st, 0, i, off); }
      addr := BMap(ip, off / BSIZE, i, 0);
      OutMapped(st, St(), i, off, addr);
      QuietFacts(st, St(), i);
      chunk := [];
      if addr != 0 {
        store.BRead(addr);
        var blk := store.Fetch(addr);
        var m := if n < BSIZE - off % BSIZE then n else BSIZE - off % BSIZE;
        chunk := blk[off % BSIZE..off % BSIZE + m];
        BlockOfFile(St(), 0, i, off, m);
        store.BRelse(addr);
      }
    }

    /** readi: dst is what was copied, and its length the return value. */
    method ReadI(ip: nat, off: Uint, n: Uint, ghost i: nat) returns (dst: seq<Byte>)
      requires store.Valid() && Inv(St(), 0) && At(ip, i) && |store.pins| + 3 <= NBUF
      modifies this, store
      ensures store.Valid() && store.pins == old(store.pins)
      ensures ReadOk(old(St()), St(), i, off, n, dst)
    {
      hide Views, Inv, Quiet, ReadSoFar, Hung, SlotsIn, SlotOf, AtHole;
      ghost var st := St();
      QuietStart(st, i);
      var size := itable[ip].d.size;
      dst := [];
      ReadSoFarStart(st, i, off, ReadCount(size, off, n));
      if off > size || (off + n) % 0x1_0000_0000 < off { return; }
      var want := if off + n > size then size - off else n;
      while |dst| < want
        invariant store.Valid() && store.pins == old(store.pins) && Quiet(st, St(), i)
        invariant |dst| <= want && dst == st.files[i].bytes[off..off + |dst|]
          && ReadSoFar(st, St(), i, off, want, |dst|)
        decreases want - |dst|
      {
        ghost var st1 := St();
        QuietFacts(st, st1, i);
        QuietAt(st, st1, i);
        var addr, chunk := CopyOut(ip, off + |dst|, want - |dst|, i);
        QuietTransitive(st, st1, St(), i);
        QuietFacts(st, St(), i);
        ReadStep(st, st1, St(), i, off, want, |dst|, if addr == 0 then 0 else |chunk|);
        if addr == 0 { return; }
        dst := dst + chunk;
      }
    }

    /** One round of writei's loop: map the block at `o` and copy into it. */
    method CopyIn(ip: nat, o: nat, src: seq<Byte>, ghost i: nat, ghost st: State, ghost off: nat, ghost done: seq<Byte>)
      returns (m: nat)
      requires store.Valid() && Writing(st, St(), i, off, done) && At(ip, i) && |store.pins| + 3 <= NBUF
      requires o == off + |done| && o < MAXBYTES && 0 < |src| < 0x1_0000_0000
      modifies this, store
      ensures store.Valid() && store.pins == old(store.pins) && m <= |src|
      ensures m == 0 ==> Writing(st, St(), i, off, done) && FullDisk(St()) && AtHole(St(), i, o)
      ensures Hung(old(St()), St(), i, SlotOf(o / BSIZE).Path())
      ensures m == 0 && i in st.solid ==> i < |st.live| && o >= st.live[i].size
      ensures m != 0 ==> Writing(st, St(), i, off, done + src[..m]) && (m == |src| || (o + m) % BSIZE == 0)
    {
      hide Views, Inv, Writing, Mapped, SlotOf, Ptr, Overlay, WithData, Hung, WordAt;
      ghost var (st1, s) := (St(), SlotOf(o / BSIZE));
      WritingFacts(st, st1, i, off, done);
      var addr := BMap(ip, o / BSIZE, i, i);
      WritingMap(st, st1, St(), i, off, done, s, addr);
      MappedHung(st1, St(), i, i, s, addr);
      MappedFacts(st1, St(), i, i, s, addr);
      if addr == 0 {
        MappedZero(st1, St(), i, i, s);
        if i in st1.solid && o < st1.live[i].size { SolidIsMapped(st1, i, i, o); }
        return 0;
      }
      ghost var st2 := St();
      WritingFacts(st, st2, i, off, done);
      m := if |src| < BSIZE - o % BSIZE then |src| else BSIZE - o % BSIZE;
      WritingData(st, st2, i, off, done, o, src[..m]);
      CopyIsAfterCopy(st2, i, o, src[..m], addr);
      HungData(st1, st2, addr, Overlay(st2.data[addr], o % BSIZE, src[..m]), i, s.Path());
      CopyBlock(addr, o % BSIZE, src[..m]);
    }

    /** Copies a piece into a block, from byte `at` on. */
    method CopyBlock(addr: nat, at: nat, piece: seq<Byte>)
      requires store.Valid() && addr in store.data && at + |piece| <= BSIZE && |store.pins| < NBUF
      modifies store
      ensures store.Valid() && store.pins == old(store.pins)
      ensures St() == WithData(old(St()), addr, Overlay(old(store.data)[addr], at, piece))
    {
      hide Views, Overlay;
      store.BRead(addr);
      var blk := store.Fetch(addr);
      store.Replace(addr, Overlay(blk, at, piece));
      store.BRelse(addr);
    }

    /** iupdate: the disk inode catches up with the table entry. */
    method IUpdate(ip: nat, ghost i: nat)
      requires store.Valid() && Held(St(), i) && slots[i] == ip && itable[ip].inum == i && itable[ip].d == live[i]
      requires |live| == store.geo.ninodes && |store.pins| < NBUF
      modifies this`files, store
      ensures store.Valid() && store.pins == old(store.pins) && St() == WithSync(old(St()), i)
    {
      hide Views, FileOf;
      store.WriteInode(itable[ip].inum, itable[ip].d);
      files := files[i := FileOf(store.data, live[i])];
    }

    /** writei; -1 when the range is refused, else the number of bytes written. */
    method WriteI(ip: nat, src: seq<Byte>, off: Uint, ghost i: nat) returns (r: int)
      requires store.Valid() && Inv(St(), 0) && At(ip, i) && |store.pins| + 3 <= NBUF && |src| < 0x1_0000_0000
      modifies this, store
      ensures store.Valid() && store.pins == old(store.pins)
      ensures WriteOk(old(St()), St(), i, off, src, r)
    {
      hide Views, Inv, Writing, Mapped, SlotOf, Ptr, Hung, SlotsIn, AtHole;
      ghost var st := St();
      if (off + |src|) % 0x1_0000_0000 < off { return -1; }
      if off + |src| > MAXBYTES { return -1; }
      WritingStart(st, i, off);
      QuietStart(st, i);
      HungItself(st, i, SlotsIn(off, |src|));
      var tot, o := 0, off;
      while tot < |src|
        invariant tot <= |src| && o == off + tot && store.Valid() && store.pins == old(store.pins)
        invariant Writing(st, St(), i, off, src[..tot]) && Hung(st, St(), i, SlotsIn(off, |src|))
        invariant tot == 0 || tot == |src| || o % BSIZE == 0
      {
        ghost var st1 := St();
        WritingFacts(st, st1, i, off, src[..tot]);
        var m := CopyIn(ip, o, src[tot..], i, st, off, src[..tot]);
        PathInRange(off, |src|, o);
        HungTransitive(st, st1, St(), i, SlotsIn(off, |src|), SlotOf(o / BSIZE).Path(), SlotsIn(off, |src|));
        if m == 0 { break; }
        PrefixGrows(src, tot, m);
        tot, o := tot + m, o + m;
      }
      ghost var st1 := St();
      WritingFacts(st, st1, i, off, src[..tot]);
      EndWrite(ip, o, i, off, st, src[..tot]);
      FinishIsWriteOk(st, st1, i, off, src, tot);
      return tot;
    }

    /** The end of writei: the size grows to what has been written, and the inode goes to disk. */
    method EndWrite(ip: nat, end: nat, ghost i: nat, ghost off: nat, ghost st: State, ghost done: seq<Byte>)
      requires store.Valid() && Writing(st, St(), i, off, done) && At(ip, i) && |store.pins| < NBUF && end <= MAXBYTES
      modifies this, store
      ensures store.Valid() && store.pins == old(store.pins) && St() == Finish(old(St()), i, off, end)
    {
      hide Views, Inv, Writing, FileOf, SolidAfter;
      ghost var st1 := St();
      WritingFacts(st, st1, i, off, done);
      solid := SolidAfter(solid, i, live[i].size, off);
      if end > itable[ip].d.size {
        itable := itable[ip := itable[ip].(d := itable[ip].d.(size := end))];
        live := live[i := itable[ip].d];
      } else {
        assert itable[slots[i] := itable[slots[i]]] == itable && live[i := live[i]] == live;
      }
      assert |live| == store.geo.ninodes by { store.Facts(); LiveLength(st, st1, i, off, done); }
      IUpdate(ip, i);
    }

    // ---------- itrunc ----------

    /** itrunc has freed what comes before position `r` in its traversal of `st`. */
    ghost predicate Freed(st: State, i: nat, r: nat)
      reads store
    {
      && store.Valid() && Inv(st, 0) && Allocated(st.live, i) && |st.live| == store.geo.ninodes
      && store.data == st.data && store.inodes == st.inodes
      && store.marked == st.marked - FreedBefore(st.owner, i, r)
    }

    /** Frees the block whose number is in slot `s`, if there is one. */
    method FreeSlot(b: nat, ghost st: State, ghost i: nat, ghost s: Slot)
      requires Freed(st, i, Rank(s)) && s.InRange() && b == Ptr(st.data, st.live[i].addrs, s) && |store.pins| < NBUF
      modifies store
      ensures Freed(st, i, Rank(s) + 1) && store.pins == old(store.pins)
    {
      hide Views, Inv, Ptr, Rank, FreedBefore;
      FreedNext(st, i, s);
      if b != 0 { store.BFree(b); }
    }

    /** The loop over the direct blocks. */
    method FreeDirect(ip: nat, ghost st: State, ghost i: nat)
      requires Freed(st, i, 0) && i in st.slots && st.slots[i] == ip && ip < |st.itable|
        && st.itable[ip].d == st.live[i]
      requires itable == st.itable && |store.pins| < NBUF
      modifies this`itable, store
      ensures Freed(st, i, NDIRECT) && store.pins == old(store.pins)
      ensures itable == st.itable[ip := st.itable[ip].(d := Cleared(st.live[i], NDIRECT))]
    {
      hide Views, Inv, FreedBefore;
      var k := 0;
      assert itable == itable[ip := itable[ip].(d := Cleared(st.live[i], 0))] by {
        assert Cleared(st.live[i], 0).addrs == st.live[i].addrs;
      }
      while k < NDIRECT
        invariant k <= NDIRECT && Freed(st, i, k) && store.pins == old(store.pins)
        invariant itable == st.itable[ip := st.itable[ip].(d := Cleared(st.live[i], k))]
      {
        var a := itable[ip].d.addrs[k];
        FreeSlot(a, st, i, Root(k));
        itable := itable[ip := itable[ip].(d := itable[ip].d.(addrs := itable[ip].d.addrs[k := 0]))];
        assert itable[ip].d.addrs == Cleared(st.live[i], k + 1).addrs;
        k := k + 1;
      }
    }

    /** The indirect block: its entries, then itself. */
    method FreeIndirect(bp: nat, ghost st: State, ghost i: nat)
      requires Freed(st, i, NDIRECT) && bp == st.live[i].addrs[NDIRECT] && |store.pins| + 2 <= NBUF
      modifies store
      ensures Freed(st, i, 268) && store.pins == old(store.pins)
    {
      hide Views, Inv, FreedBefore, Word;
      if bp == 0 {
        SkipRoot(st, i, NDIRECT);
        return;
      }
      HoldsAt(st, i, Root(NDIRECT));
      store.BRead(bp);
      var a := store.Fetch(bp);
      var j := 0;
      while j < NINDIRECT
        invariant j <= NINDIRECT && Freed(st, i, NDIRECT + j) && store.pins == old(store.pins) + multiset{bp}
      {
        FreeSlot(Word(a, j), st, i, Entry(j));
        j := j + 1;
      }
      store.BRelse(bp);
      FreeSlot(bp, st, i, Root(NDIRECT));
    }

    /** One middle block under the double-indirect block: its leaves, then itself. */
    method FreeMid(bp2: nat, m: nat, ghost st: State, ghost i: nat)
      requires Freed(st, i, 268 + 257 * m) && m < NINDIRECT
      requires bp2 == Ptr(st.data, st.live[i].addrs, Mid(m)) && |store.pins| + 2 <= NBUF
      modifies store
      ensures Freed(st, i, 268 + 257 * (m + 1)) && store.pins == old(store.pins)
    {
      hide Views, Inv, FreedBefore, Word;
      if bp2 == 0 {
        SkipMid(st, i, m);
        return;
      }
      HoldsAt(st, i, Mid(m));
      store.BRead(bp2);
      var a := store.Fetch(bp2);
      var j := 0;
      while j < NINDIRECT
        invariant j <= NINDIRECT && Freed(st, i, 268 + 257 * m + j) && store.pins == old(store.pins) + multiset{bp2}
      {
        FreeSlot(Word(a, j), st, i, Leaf(m, j));
        j := j + 1;
      }
      store.BRelse(bp2);
      FreeSlot(bp2, st, i, Mid(m));
    }

    /** The double-indirect block: its middle blocks, then itself. */
    method FreeDouble(bp: nat, ghost st: State, ghost i: nat)
      requires Freed(st, i, 268) && bp == st.live[i].addrs[NDIRECT + 1] && |store.pins| + 3 <= NBUF
      modifies store
      ensures Freed(st, i, RANKS) && store.pins == old(store.pins)
    {
      hide Views, Inv, FreedBefore, Word;
      if bp == 0 {
        SkipRoot(st, i, NDIRECT + 1);
        return;
      }
      HoldsAt(st, i, Root(NDIRECT + 1));
      store.BRead(bp);
      var a := store.Fetch(bp);
      var m := 0;
      while m < NINDIRECT
        invariant m <= NINDIRECT && Freed(st, i, 268 + 257 * m) && store.pins == old(store.pins) + multiset{bp}
      {
        FreeMid(Word(a, m), m, st, i);
        m := m + 1;
      }
      store.BRelse(bp);
      FreeSlot(bp, st, i, Root(NDIRECT + 1));
    }

    /** The three parts of itrunc, and the inode they leave in memory. */
    method FreeBlocks(ip: nat, ghost st: State, ghost i: nat)
      requires store.Valid() && Inv(st, 0) && St() == st && At(ip, i) && |store.pins| + 3 <= NBUF
      modifies this`itable, store
      ensures store.Valid() && store.pins == old(store.pins) && store.data == st.data && store.inodes == st.inodes
      ensures store.marked == st.marked - BlocksOf(st.owner, i) && i < |st.live|
      ensures itable == st.itable[ip := st.itable[ip].(d := Truncated(st.live[i]))]
    {
      hide Views, Inv, FreedBefore, BlocksOf;
      QuietStart(st, i);
      store.Facts();
      HeldFacts(st, i);
      FreedAll(st, i);
      FreeDirect(ip, st, i);
      FreeIndirect(itable[ip].d.addrs[NDIRECT], st, i);
      itable := itable[ip := itable[ip].(d := itable[ip].d.(addrs := itable[ip].d.addrs[NDIRECT := 0]))];
      FreeDouble(itable[ip].d.addrs[NDIRECT + 1], st, i);
      itable := itable[ip := itable[ip].(d := itable[ip].d.(addrs := itable[ip].d.addrs[NDIRECT := 0]))];
      itable := itable[ip := itable[ip].(d := itable[ip].d.(size := 0))];
      assert itable[ip].d == Truncated(st.live[i]) by { assert itable[ip].d.addrs == Truncated(st.live[i]).addrs; }
    }

    /** itrunc: exactly the blocks reachable from the inode lose their marks, each once,
        and addrs[NDIRECT + 1] keeps its value. */
    method ITrunc(ip: nat, ghost i: nat)
      requires store.Valid() && Inv(St(), 0) && At(ip, i) && |store.pins| + 3 <= NBUF
      modifies this, store
      ensures store.Valid() && store.pins == old(store.pins) && St() == WithTrunc(old(St()), i)
    {
      hide Views, Inv, BlocksOf, OwnerWithout, FileOf, WithTrunc, WithSync, Truncated;
      ghost var st := St();
      store.Facts();
      HeldFacts(st, i);
      FreeBlocks(ip, st, i);
      live := live[i := Truncated(st.live[i])];
      owner := OwnerWithout(owner, i);
      TruncSynced(st, St(), i);
      IUpdate(ip, i);
    }

    // ---------- the inode table ----------

    /** The scan of iget: the entry of inode `inum`, or NINODE; and the first empty entry
        met on the way, or NINODE. */
    method FindEntry(inum: nat) returns (ip: nat, empty: nat)
      requires |itable| == NINODE
      ensures ip <= NINODE && empty <= NINODE
      ensures ip < NINODE ==> itable[ip].ref > 0 && itable[ip].inum == inum
      ensures forall s :: 0 <= s < ip ==> !(itable[s].ref > 0 && itable[s].inum == inum)
      ensures empty < NINODE ==> itable[empty].ref == 0
      ensures forall s :: 0 <= s < ip && s < empty ==> itable[s].ref > 0
    {
      ip, empty := 0, NINODE;
      while ip < NINODE
        invariant ip <= NINODE && (empty < ip || empty == NINODE)
        invariant forall s :: 0 <= s < ip ==> !(itable[s].ref > 0 && itable[s].inum == inum)
        invariant empty < NINODE ==> itable[empty].ref == 0
        invariant forall s :: 0 <= s < ip && s < empty ==> itable[s].ref > 0
      {
        if itable[ip].ref > 0 && itable[ip].inum == inum { return; }
        if empty == NINODE && itable[ip].ref == 0 { empty := ip; }
        ip := ip + 1;
      }
    }

    /** iget: one more reference to inode `inum`, through its table entry, claiming an empty
        entry when it has none.  Exactly when there is neither, it panics. */
    method IGet(inum: nat) returns (ip: nat)
      requires Inv(St(), 0) && 0 < inum && Allocated(live, inum) && RoomFor(slots.Keys, inum)
      modifies this`itable, this`slots
      ensures GetOk(old(St()), St(), inum, ip)
    {
      hide Inv, GetOk, SlotOk;
      ghost var st := St();
      SlotsOfReferenced(st);
      var found, empty := FindEntry(inum);
      if found < NINODE {
        ip := found;
        GetAgain(st, ip, inum);
        itable := itable[ip := itable[ip].(ref := itable[ip].ref + 1)];
        assert slots == slots[inum := ip];
      } else {
        RoomForOne(st);
        ip := empty;
        GetNew(st, ip, inum);
        itable := itable[ip := MemInode(inum, 1, false, itable[ip].d)];
        slots := slots[inum := ip];
      }
    }

    /** idup. */
    method IDup(ip: nat)
      requires Inv(St(), 0) && ip < |itable| && itable[ip].ref > 0
      modifies this`itable
      ensures ip < |old(itable)| && GetOk(old(St()), St(), old(itable[ip].inum), ip)
    {
      hide Inv, GetOk;
      SlotsOfReferenced(St());
      GetAgain(St(), ip, itable[ip].inum);
      assert slots == slots[itable[ip].inum := ip];
      itable := itable[ip := itable[ip].(ref := itable[ip].ref + 1)];
    }

    /** ilock; the panic "ilock: no type" cannot happen. */
    method ILock(ip: nat)
      requires store.Valid() && Inv(St(), 0) && ip < |itable| && itable[ip].ref > 0 && |store.pins| < NBUF
      modifies this`itable, store`pins
      ensures store.pins == old(store.pins) && LockOk(old(St()), St(), old(itable[ip].inum))
      ensures old(itable[ip].valid) ==> St() == old(St())
    {
      hide Views, Inv, LockOk;
      SlotsOfReferenced(St());
      if !itable[ip].valid {
        LoadIsLockOk(St(), ip);
        store.Facts();
        var d := store.ReadInode(itable[ip].inum);
        itable := itable[ip := itable[ip].(valid := true, d := d)];
        assert d.typ != 0;
      } else {
        LockedAlready(St(), ip);
      }
    }

    /** iput. */
    method IPut(ip: nat)
      requires store.Valid() && Inv(St(), 0) && ip < |itable| && itable[ip].ref > 0 && |store.pins| + 3 <= NBUF
      modifies this, store
      ensures store.Valid() && store.pins == old(store.pins)
      ensures PutOk(old(St()), St(), old(itable[ip].inum)) && St() == AfterPut(old(St()), old(itable[ip].inum))
    {
      hide Views, Inv, PutOk, BlocksOf, OwnerWithout, Truncated, Remaining, FileOf;
      ghost var (st, i) := (St(), itable[ip].inum);
      SlotsOfReferenced(st);
      HeldIfReferenced(st, i);
      PutIsOk(st, i);
      if itable[ip].ref == 1 && itable[ip].valid && itable[ip].d.nlink == 0 {
        FreeInode(ip, i);
      } else {
        itable := itable[ip := itable[ip].(ref := itable[ip].ref - 1)];
        if itable[ip].ref == 0 {
          live, owner, slots :=
            live[i := store.inodes[i]], Remaining(store.data, owner, i, store.inodes[i]), slots - {i};
        }
      }
    }

    /** The freeing part of iput: truncated, typeless, stored, and the last reference gone. */
    method FreeInode(ip: nat, ghost i: nat)
      requires store.Valid() && Inv(St(), 0) && At(ip, i) && itable[ip].ref == 1 && |store.pins| + 3 <= NBUF
      modifies this, store
      ensures store.Valid() && store.pins == old(store.pins) && St() == WithFree(old(St()), i)
    {
      hide Views, Inv, BlocksOf, OwnerWithout, WithTrunc, WithSync, WithFree, Truncated;
      ghost var st := St();
      HeldFacts(st, i);
      LengthsAgree(st);
      store.Facts();
      ITrunc(ip, i);
      TruncFacts(st, i);
      itable := itable[ip := itable[ip].(d := itable[ip].d.(typ := 0))];
      live := live[i := itable[ip].d];
      ghost var st1 := St();
      IUpdate(ip, i);
      SyncFacts(st1, i);
      itable := itable[ip := itable[ip].(valid := false)];
      itable := itable[ip := itable[ip].(ref := itable[ip].ref - 1)];
      slots, solid := slots - {i}, solid - {i};
      TruncThenFree(st, st1, St(), i);
    }

    /** ialloc: claims the lowest free inode, or NINODE when there is none.  Its iget panics
        when it has claimed an inode and the table is full. */
    method IAlloc(typ: Short) returns (ip: nat, ghost i: nat)
      requires store.Valid() && Inv(St(), 0) && typ != 0 && |store.pins| < NBUF
      requires |slots| < NINODE || forall j: nat :: 1 <= j < |files| ==> files[j] != Free
      modifies this`itable, this`slots, this`live, this`files, this`solid, store
      ensures store.Valid() && store.pins == old(store.pins)
      ensures ip < NINODE ==> AllocOk(old(St()), St(), i, typ, ip)
      ensures ip >= NINODE ==> St() == old(St()) && forall j: nat :: 1 <= j < |files| ==> files[j] != Free
    {
      hide Views, Inv, GetOk, AllocOk, FileOf;
      ghost var st := St();
      store.Facts();
      LengthsAgree(st);
      var inum := store.ClaimInode(typ);
      i := inum;
      if inum == 0 {
        forall j: nat | 1 <= j < |files| ensures files[j] != Free { TypeOfFile(st, j); }
        return NINODE, 0;
      }
      TypeOfFile(st, i);
      FreeInodeOwnsNothing(st, i);
      ClaimKeepsInv(st, i, typ);
      live, files, solid := live[i := EmptyInode(typ)], files[i := FileOf(store.data, EmptyInode(typ))], solid + {i};
      assert St() == WithClaim(st, i, typ);
      ip := IGet(inum);
      ClaimThenGet(st, St(), i, typ, ip);
      GetOkFacts(WithClaim(st, i, typ), St(), i, ip);
    }

    /** Sets the device numbers and the link count of an inode, in memory and on disk. */
    method SetFields(ip: nat, major: Short, minor: Short, nlink: Short, ghost i: nat)
      requires store.Valid() && Inv(St(), 0) && At(ip, i) && |store.pins| < NBUF
      modifies this, store
      ensures store.Valid() && store.pins == old(store.pins)
      ensures FieldsOk(old(St()), St(), i, major, minor, nlink)
    {
      hide Views, Inv, FieldsOk, FileOf;
      ghost var st := St();
      HeldFacts(st, i);
      store.Facts();
      FieldsAreOk(st, i, major, minor, nlink);
      itable := itable[ip := itable[ip].(d := itable[ip].d.(major := major, minor := minor, nlink := nlink))];
      live := live[i := itable[ip].d];
      IUpdate(ip, i);
      assert St() == AfterFields(st, i, major, minor, nlink);
    }
  }
}
