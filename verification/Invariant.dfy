/** The state of the file system and the invariant tying its parts together:
    disk views, in-memory inode table, ownership of blocks, and file contents. */
module Invariant {
  import opened Layout
  import opened BlockTree

  /** struct inode, an entry of the in-memory inode table. */
  datatype MemInode = MemInode(inum: nat, ref: nat, valid: bool, d: Dinode)

  /** The table entry that holds each referenced inode. */
  type Slots = map<nat, nat>

  /** Everything the invariant speaks of.
      `inodes` is the inode table on disk; `live` is the current inode, which is the
      in-memory copy where there is a valid one; `files` is what clients see;
      `solid` are files known to have no holes. */
  datatype State = State(data: Disk, marked: set<nat>, inodes: seq<Dinode>, itable: seq<MemInode>, slots: Slots,
                         live: seq<Dinode>, owner: map<nat, Owner>, files: seq<File>, solid: set<nat>)

  /** Referenced table entries and referenced inodes correspond one to one; a valid
      entry is the live inode; no entry refers to a free inode. */
  ghost predicate TableOk(itable: seq<MemInode>, slots: Slots, live: seq<Dinode>)
  {
    && |itable| == NINODE
    && (forall s: nat {:trigger itable[s]} :: s < NINODE && itable[s].ref > 0 ==>
          itable[s].inum in slots && slots[itable[s].inum] == s)
    && (forall i {:trigger slots[i]} :: i in slots ==> SlotOk(itable, slots[i], live, i))
  }

  ghost predicate SlotOk(itable: seq<MemInode>, s: nat, live: seq<Dinode>, i: nat)
  {
    && s < |itable| && itable[s].ref > 0 && itable[s].inum == i
    && 0 < i && Allocated(live, i)
    && (itable[s].valid ==> itable[s].d == live[i])
  }

  ghost predicate Cached(itable: seq<MemInode>, slots: Slots, i: nat)
  {
    i in slots && slots[i] < |itable| && itable[slots[i]].valid
  }

  /** The disk inode shadows the live one, and the file is what the live one says. */
  ghost predicate InodeOk(data: Disk, d0: Dinode, d: Dinode, f: File)
  {
    && Shadow(data, d0, d)
    && (d.typ != 0 ==> d.size <= MAXBYTES && ZeroTail(data, d))
    && f == FileOf(data, d)
  }

  /** Inode `i` is not the one being updated. */
  ghost predicate Settled(i: nat, x: nat) { x == 0 || i != x }

  /** No block is shared, and every reachable block is marked in the bitmap. */
  ghost predicate TreesOk(st: State)
  {
    && Owned(st.data, st.live, st.owner)
    && (forall b :: b in st.owner ==> b in st.marked)
  }

  /** Every file but `x` is what its inode says, here and on disk; solid files have no hole. */
  ghost predicate FilesOk(st: State, x: nat)
  {
    && |st.live| == |st.inodes| == |st.files|
    && (forall i: nat {:trigger st.live[i]} :: i < |st.live| && Settled(i, x) ==>
       InodeOk(st.data, st.inodes[i], st.live[i], st.files[i]))
    && (forall i: nat {:trigger st.live[i]} :: i < |st.live| && !Cached(st.itable, st.slots, i) ==>
       st.inodes[i] == st.live[i])
    && (forall i {:trigger i in st.solid} :: i in st.solid ==> Allocated(st.live, i) && Dense(st.data, st.live[i]))
    && (forall i {:trigger i in st.solid} :: i in st.solid && i < |st.live| && Settled(i, x) ==>
       st.inodes[i] == st.live[i])
  }

  /** The invariant.  Inode `x`, if not 0, is in the middle of an update: it is cached,
      and only its block tree is promised to be in order. */
  ghost predicate Inv(st: State, x: nat)
  {
    && TreesOk(st)
    && TableOk(st.itable, st.slots, st.live)
    && (x != 0 ==> Cached(st.itable, st.slots, x))
    && FilesOk(st, x)
  }

  /** No marked data block is unreachable. */
  ghost predicate NoLeak(st: State)
  {
    forall b :: b in st.marked && b in st.data ==> b in st.owner
  }

  /** No block is lost, nor will one be when an inode goes out of memory: the disk has every
      inode as it is. */
  ghost predicate Tidy(st: State) { NoLeak(st) && st.inodes == st.live }

  /** The blocks of inode `d` are still its blocks. */
  ghost predicate StillOwned(owner: map<nat, Owner>, owner': map<nat, Owner>, d: nat)
  {
    forall b {:trigger b in owner} :: b in owner && owner[b].inum == d ==> b in owner' && owner'[b] == owner[b]
  }

  /** At most the inode table has changed. */
  ghost predicate SameDisk(st: State, st': State) { st' == st.(itable := st'.itable, slots := st'.slots) }

  /** Only addrs may change, and no block number that is there goes away. */
  ghost predicate Grown(data: Disk, d: Dinode, data': Disk, d': Dinode)
  {
    && d' == d.(addrs := d'.addrs)
    && (d.typ != 0 ==> forall s {:trigger Ptr(data, d.addrs, s)} :: Ptr(data, d.addrs, s) != 0 ==>
       Ptr(data', d'.addrs, s) == Ptr(data, d.addrs, s))
  }

  /** What bmap may do to an inode: fill empty addrs and pointer words without
      changing a byte of the file. */
  ghost predicate Evolved(data: Disk, d: Dinode, data': Disk, d': Dinode)
  {
    if d.typ == 0 then d' == d else
      && (forall k :: 0 <= k < NADDR ==> d.addrs[k] == 0 || d'.addrs[k] == d.addrs[k])
      && SameBlocks(data, d, data', d')
  }

  /** All inodes grow, none but `x` changes its bytes, and the disk inodes stay. */
  ghost predicate Evolves(st: State, st': State, x: nat)
  {
    && |st'.live| == |st.live| && st'.inodes == st.inodes && st'.files == st.files && st'.solid == st.solid
    && (forall i: nat {:trigger st'.live[i]} :: i < |st.live| ==> Grown(st.data, st.live[i], st'.data, st'.live[i]))
    && (forall i: nat {:trigger st'.live[i]} :: i < |st.live| && Settled(i, x) ==>
       Evolved(st.data, st.live[i], st'.data, st'.live[i]))
  }

  lemma EvolvesTransitive(st: State, st': State, st'': State, x: nat)
    requires Evolves(st, st', x) && Evolves(st', st'', x)
    ensures Evolves(st, st'', x)
  {
    hide Ptr, FileBlock;
    forall i: nat | i < |st.live|
      ensures Grown(st.data, st.live[i], st''.data, st''.live[i])
    {
      assert Grown(st.data, st.live[i], st'.data, st'.live[i]);
    }
    forall i: nat | i < |st.live| && Settled(i, x)
      ensures Evolved(st.data, st.live[i], st''.data, st''.live[i])
    {
      EvolvedTransitive(st.data, st.live[i], st'.data, st'.live[i], st''.data, st''.live[i]);
    }
  }

  lemma EvolvedTransitive(data: Disk, d: Dinode, data': Disk, d': Dinode, data'': Disk, d'': Dinode)
    requires Evolved(data, d, data', d') && Evolved(data', d', data'', d'') && d'.typ == d.typ
    ensures Evolved(data, d, data'', d'')
  {
    hide FileBlock;
    forall bn: nat | d.typ != 0 && bn < MAXFILE
      ensures FileBlock(data'', d''.addrs, bn) == FileBlock(data, d.addrs, bn)
    {
      assert FileBlock(data', d'.addrs, bn) == FileBlock(data, d.addrs, bn);
    }
  }

  lemma InodeOkStable(data: Disk, d0: Dinode, d: Dinode, f: File, data': Disk, d': Dinode)
    requires InodeOk(data, d0, d, f) && Evolved(data, d, data', d') && d' == d.(addrs := d'.addrs)
    ensures InodeOk(data', d0, d', f)
  {
    if d.typ != 0 {
      SameBlocksSameFile(data, d, data', d');
      ShadowStable(data, d0, d, data', d');
    }
    hide Shadow, SameBlocks, ZeroTail, Content, Ptr;
  }

  lemma DenseStable(data: Disk, d: Dinode, data': Disk, d': Dinode)
    requires Dense(data, d) && d.typ != 0 && Grown(data, d, data', d')
    ensures Dense(data', d')
  {
    hide Ptr, SlotOf;
    forall bn: nat | bn * BSIZE < d'.size
      ensures Ptr(data', d'.addrs, SlotOf(bn)) != 0
    {
      assert Ptr(data, d.addrs, SlotOf(bn)) != 0;
    }
  }

  lemma InvStable(st: State, st': State, x: nat)
    requires Inv(st, x) && Evolves(st, st', x)
    requires TreesOk(st') && TableOk(st'.itable, st'.slots, st'.live)
    requires x != 0 ==> Cached(st'.itable, st'.slots, x)
    requires forall i :: i in st.solid && i < |st.live| && Settled(i, x) ==> st'.live[i] == st.live[i]
    requires forall i: nat :: i < |st.live| && !Cached(st'.itable, st'.slots, i) ==>
      !Cached(st.itable, st.slots, i) && st'.live[i] == st.live[i]
    ensures Inv(st', x)
  {
    hide Owned, Dense, InodeOk, Evolved, TableOk, Cached;
    forall i: nat | i < |st.live|
      ensures Settled(i, x) ==> InodeOk(st'.data, st'.inodes[i], st'.live[i], st'.files[i])
      ensures i in st.solid ==> Allocated(st'.live, i) && Dense(st'.data, st'.live[i])
    {
      assert Grown(st.data, st.live[i], st'.data, st'.live[i]);
      if Settled(i, x) { InodeOkStable(st.data, st.inodes[i], st.live[i], st.files[i], st'.data, st'.live[i]); }
      if i in st.solid { DenseStable(st.data, st.live[i], st'.data, st'.live[i]); }
      hide Grown, Ptr;
    }
  }

  // ---------- one lemma per kind of step ----------

  /** Inode `i` exists and, for Held, has a table entry. */
  ghost predicate Exists(st: State, i: nat) { i < |st.live| && i < |st.inodes| && i < |st.files| }

  ghost predicate Held(st: State, i: nat) { Exists(st, i) && i in st.slots && st.slots[i] < |st.itable| }

  /** balloc: mark an unowned block and zero it. */
  function WithFresh(st: State, a: nat): State
  {
    st.(data := st.data[a := Zeros()], marked := st.marked + {a})
  }

  lemma FreshEvolves(st: State, a: nat)
    requires Owned(st.data, st.live, st.owner) && a in st.data && a !in st.owner
      && |st.live| == |st.inodes| == |st.files|
    ensures Evolves(st, WithFresh(st, a), 0)
  {
    var data' := st.data[a := Zeros()];
    forall i: nat | i < |st.live|
      ensures Grown(st.data, st.live[i], data', st.live[i]) && Evolved(st.data, st.live[i], data', st.live[i])
    {
      if st.live[i].typ != 0 {
        forall s
          ensures Ptr(data', st.live[i].addrs, s) == Ptr(st.data, st.live[i].addrs, s)
        {
          WriteKeepsPtr(st.data, st.live, st.owner, a, Zeros(), i, s);
        }
        forall bn: nat | bn < MAXFILE
          ensures FileBlock(data', st.live[i].addrs, bn) == FileBlock(st.data, st.live[i].addrs, bn)
        {
          UnownedWriteKeepsFiles(st.data, st.live, st.owner, a, Zeros(), i, bn);
        }
      }
      hide Ptr, FileBlock;
    }
  }

  lemma FreshKeepsInv(st: State, x: nat, a: nat)
    requires Inv(st, x) && a in st.data && a !in st.marked
    ensures Inv(WithFresh(st, a), x) && Evolves(st, WithFresh(st, a), 0)
  {
    FreshEvolves(st, a);
    WriteKeepsOwned(st.data, st.live, st.owner, a, Zeros());
    hide Owned, TableOk, Cached, Evolved;
    InvStable(st, WithFresh(st, a), x);
  }

  /** Changing the in-memory copy of a cached inode, kept allocated. */
  lemma UpdateKeepsTable(itable: seq<MemInode>, slots: Slots, live: seq<Dinode>, i: nat, d: Dinode)
    requires TableOk(itable, slots, live) && Cached(itable, slots, i) && d.typ != 0
    ensures i < |live|
    ensures TableOk(itable[slots[i] := itable[slots[i]].(d := d)], slots, live[i := d])
    ensures forall j :: Cached(itable[slots[i] := itable[slots[i]].(d := d)], slots, j) == Cached(itable, slots, j)
  {
    assert SlotOk(itable, slots[i], live, i);
    var (itable', live') := (itable[slots[i] := itable[slots[i]].(d := d)], live[i := d]);
    forall j | j in slots
      ensures SlotOk(itable', slots[j], live', j)
    {
      assert SlotOk(itable, slots[j], live, j);
    }
  }

  /** bmap storing a fresh block number in an empty slot. */
  ghost function WithGraft(st: State, i: nat, s: Slot, a: Uint): State
  {
    if !Held(st, i) then st else var e := st.itable[st.slots[i]];
    st.(data := GraftData(st.data, st.live[i].addrs, s, a),
        live := st.live[i := GraftInode(st.live[i], s, a)],
        itable := st.itable[st.slots[i] := e.(d := GraftInode(e.d, s, a))],
        owner := st.owner[a := Owner(i, s)])
  }

  /** A block number stored outside the inode changes neither inode nor table. */
  lemma GraftOutsideInode(st: State, i: nat, s: Slot, a: Uint)
    requires !s.Root? && Held(st, i)
    ensures WithGraft(st, i, s, a) ==
      st.(data := GraftData(st.data, st.live[i].addrs, s, a), owner := st.owner[a := Owner(i, s)])
  {
    hide Ptr;
    assert st.live[i := st.live[i]] == st.live;
    assert st.itable[st.slots[i] := st.itable[st.slots[i]]] == st.itable;
  }

  lemma GraftEvolves(st: State, i: nat, s: Slot, a: Uint)
    requires CanGraft(st.data, st.live, st.owner, i, s, a) && |st.live| == |st.inodes| == |st.files|
    requires i in st.slots && st.slots[i] < |st.itable|
    ensures Evolves(st, WithGraft(st, i, s, a), 0)
  {
    var st' := WithGraft(st, i, s, a);
    forall j: nat | j < |st.live|
      ensures Grown(st.data, st.live[j], st'.data, st'.live[j]) && Evolved(st.data, st.live[j], st'.data, st'.live[j])
    {
      if st.live[j].typ != 0 {
        forall t
          ensures Ptr(st'.data, st'.live[j].addrs, t) ==
            if j == i && t == s then a else Ptr(st.data, st.live[j].addrs, t)
        {
          GraftPtr(st.data, st.live, st.owner, i, s, a, j, t);
        }
        forall bn: nat | bn < MAXFILE
          ensures FileBlock(st'.data, st'.live[j].addrs, bn) == FileBlock(st.data, st.live[j].addrs, bn)
        {
          GraftKeepsFiles(st.data, st.live, st.owner, i, s, a, j, bn);
        }
      }
      hide FileBlock, GraftData, WordAt;
    }
  }

  lemma GraftKeepsInv(st: State, x: nat, i: nat, s: Slot, a: Uint)
    requires Inv(st, x) && CanGraft(st.data, st.live, st.owner, i, s, a) && a in st.marked
    requires Cached(st.itable, st.slots, i) && (i in st.solid && s.Root? ==> x == i)
    ensures Inv(WithGraft(st, i, s, a), x) && Evolves(st, WithGraft(st, i, s, a), 0)
    ensures Ptr(WithGraft(st, i, s, a).data, WithGraft(st, i, s, a).live[i].addrs, s) == a
  {
    var st' := WithGraft(st, i, s, a);
    assert SlotOk(st.itable, st.slots[i], st.live, i);
    hide Owned, TableOk, InodeOk, Dense;
    UpdateKeepsTable(st.itable, st.slots, st.live, i, GraftInode(st.live[i], s, a));
    GraftEvolves(st, i, s, a);
    GraftKeepsOwned(st.data, st.live, st.owner, i, s, a);
    GraftPtr(st.data, st.live, st.owner, i, s, a, i, s);
    hide Ptr, GraftData, GraftInode, CanGraft, SlotOk;
    assert TreesOk(st');
    hide TreesOk, Evolves, Cached;
    InvStable(st, st', x);
  }

  /** The table entries agree except for the loaded inode. */
  ghost predicate SameRefs(t: seq<MemInode>, t': seq<MemInode>)
  {
    |t'| == |t| && forall s {:trigger t'[s]} :: 0 <= s < |t| ==> t'[s] == t[s].(d := t'[s].d)
  }

  /** Every data block is marked in use. */
  ghost predicate FullDisk(st: State)
  {
    forall b :: b in st.data ==> b in st.marked
  }

  /** Block `b` is newly in use, in one of `slots` of inode `i`. */
  ghost predicate NewIn(st: State, st': State, b: nat, i: nat, slots: set<Slot>)
  {
    b in st'.marked && b !in st.marked && b in st'.owner && st'.owner[b].inum == i && st'.owner[b].slot in slots
  }

  /** What is newly in use is in `slots` of inode `i`, and nothing is out of use that was
      not; the other inodes stay as they are. */
  ghost predicate Hung(st: State, st': State, i: nat, slots: set<Slot>)
  {
    && st.marked <= st'.marked && st'.data.Keys == st.data.Keys
    && (forall b {:trigger b in st.owner} :: b in st.owner ==> b in st'.owner && st'.owner[b] == st.owner[b])
    && (forall b {:trigger b in st'.owner} :: b in st'.owner && b !in st.owner ==> NewIn(st, st', b, i, slots))
    && (forall b {:trigger b in st'.marked} :: b in st'.marked && b !in st.marked ==> b in st'.owner && b !in st.owner)
    && |st'.live| == |st.live|
    && (forall j: nat {:trigger st'.live[j]} :: j < |st.live| && j != i ==> st'.live[j] == st.live[j])
  }

  lemma HungItself(st: State, i: nat, slots: set<Slot>)
    ensures Hung(st, st, i, slots)
  {
  }

  lemma HungTransitive(st: State, st1: State, st2: State, i: nat, slots1: set<Slot>, slots2: set<Slot>,
                       slots: set<Slot>)
    requires Hung(st, st1, i, slots1) && Hung(st1, st2, i, slots2) && slots1 <= slots && slots2 <= slots
    ensures Hung(st, st2, i, slots)
  {
    forall b | b in st2.owner && b !in st.owner ensures NewIn(st, st2, b, i, slots) {
      if b in st1.owner { assert NewIn(st, st1, b, i, slots1); } else { assert NewIn(st1, st2, b, i, slots2); }
    }
    forall b | b in st2.marked && b !in st.marked ensures b in st2.owner && b !in st.owner {
      if b in st1.marked { assert b in st1.owner; }
    }
  }

  lemma HungWithin(st: State, st1: State, i: nat, slots: set<Slot>, more: set<Slot>)
    requires Hung(st, st1, i, slots) && slots <= more
    ensures Hung(st, st1, i, more)
  {
    HungItself(st1, i, more);
    HungTransitive(st, st1, st1, i, slots, more, more);
  }

  lemma HungGraft(st: State, i: nat, s: Slot, a: Uint)
    requires Held(st, i) && a in st.data && a !in st.marked && a !in st.owner
    requires s.Root? || Ptr(WithFresh(st, a).data, st.live[i].addrs, s.Parent()) in st.data
    ensures Hung(st, WithGraft(WithFresh(st, a), i, s, a), i, s.Path())
  {
    hide Ptr;
  }

  /** What bmap promises for slot `s` of inode `i`: it returns the block number that is
      there now, or 0 when the disk is full; a number that was there is returned without
      any change; blocks come into use only on the way to the slot, one each; and in no
      case does a byte of any file change. */
  ghost predicate Mapped(st: State, st': State, x: nat, i: nat, s: Slot, addr: nat)
  {
    && Inv(st', x) && Evolves(st, st', 0)
    && st'.slots == st.slots && SameRefs(st.itable, st'.itable)
    && i < |st.live| && i < |st'.live| && Cached(st'.itable, st'.slots, i)
    && addr == Ptr(st'.data, st'.live[i].addrs, s)
    && (if addr == 0 then FullDisk(st') else addr in st'.data)
    && (Ptr(st.data, st.live[i].addrs, s) != 0 ==> st' == st)
    && Hung(st, st', i, s.Path()) && (NoLeak(st) ==> NoLeak(st'))
  }

  /** The parts of it. */
  lemma MappedParts(st: State, st': State, x: nat, i: nat, s: Slot, addr: nat)
    requires Mapped(st, st', x, i, s, addr)
    ensures Inv(st', x) && Evolves(st, st', 0) && st'.slots == st.slots && SameRefs(st.itable, st'.itable)
    ensures i < |st.live| && i < |st'.live| && Cached(st'.itable, st'.slots, i)
      && addr == Ptr(st'.data, st'.live[i].addrs, s)
    ensures if addr == 0 then FullDisk(st') else addr in st'.data
    ensures Ptr(st.data, st.live[i].addrs, s) != 0 ==> st' == st
    ensures Hung(st, st', i, s.Path()) && (NoLeak(st) ==> NoLeak(st'))
  {
    hide Inv, Evolves, Ptr, Hung, NoLeak, SameRefs, Cached, FullDisk;
  }

  lemma MappedFrom(st: State, st': State, x: nat, i: nat, s: Slot, addr: nat)
    requires Inv(st', x) && Evolves(st, st', 0) && st'.slots == st.slots && SameRefs(st.itable, st'.itable)
    requires i < |st.live| && i < |st'.live| && Cached(st'.itable, st'.slots, i)
      && addr == Ptr(st'.data, st'.live[i].addrs, s)
    requires if addr == 0 then FullDisk(st') else addr in st'.data
    requires Ptr(st.data, st.live[i].addrs, s) != 0 ==> st' == st
    requires Hung(st, st', i, s.Path()) && (NoLeak(st) ==> NoLeak(st'))
    ensures Mapped(st, st', x, i, s, addr)
  {
    hide Inv, Evolves, Ptr, Hung, NoLeak, SameRefs, Cached, FullDisk;
  }

  /** Slot `s` of cached inode `i` may be asked for. */
  ghost predicate CanMap(st: State, x: nat, i: nat, s: Slot)
  {
    && Inv(st, x) && Cached(st.itable, st.slots, i) && Allocated(st.live, i) && s.InRange()
    && (i in st.solid && Ptr(st.data, st.live[i].addrs, s) == 0 ==> x == i)
    && (s.Root? || Ptr(st.data, st.live[i].addrs, s.Parent()) != 0)
  }

  lemma SameRefsItself(t: seq<MemInode>)
    ensures SameRefs(t, t)
  {
  }

  lemma CanMapFacts(st: State, x: nat, i: nat, s: Slot)
    requires CanMap(st, x, i, s)
    ensures Held(st, i) && Allocated(st.live, i) && i in st.slots && s.InRange()
    ensures st.slots[i] < NINODE && |st.itable| == NINODE && st.itable[st.slots[i]].d == st.live[i]
    ensures Ptr(st.data, st.live[i].addrs, s) != 0 ==>
      Ptr(st.data, st.live[i].addrs, s) in st.data && Mapped(st, st, x, i, s, Ptr(st.data, st.live[i].addrs, s))
    ensures !s.Root? ==> Ptr(st.data, st.live[i].addrs, s.Parent()) in st.data
    ensures FullDisk(st) && Ptr(st.data, st.live[i].addrs, s) == 0 ==> Mapped(st, st, x, i, s, 0)
  {
    hide Ptr, Inv, CanMap, NoLeak, Hung, Evolves, Cached, Mapped, SameRefs, FullDisk;
    CanMapHolds(st, x, i, s);
    HungItself(st, i, s.Path());
    CanMapBasics(st, x, i, s);
    EvolvesItself(st, 0);
    assert SameRefs(st.itable, st.itable) by { SameRefsItself(st.itable); }
    var a := Ptr(st.data, st.live[i].addrs, s);
    if a != 0 || FullDisk(st) { MappedFrom(st, st, x, i, s, a); }
  }

  lemma CanMapBasics(st: State, x: nat, i: nat, s: Slot)
    requires CanMap(st, x, i, s)
    ensures Held(st, i) && Allocated(st.live, i) && i in st.slots && s.InRange() && Inv(st, x)
      && Cached(st.itable, st.slots, i)
    ensures st.slots[i] < NINODE && |st.itable| == NINODE && st.itable[st.slots[i]].d == st.live[i]
  {
    assert SlotOk(st.itable, st.slots[i], st.live, i);
    hide TreesOk, InodeOk, Dense, Ptr;
  }

  /** The block number in the slot, and that of the block it lives in, are data blocks. */
  lemma CanMapHolds(st: State, x: nat, i: nat, s: Slot)
    requires CanMap(st, x, i, s)
    ensures Ptr(st.data, st.live[i].addrs, s) != 0 ==> Ptr(st.data, st.live[i].addrs, s) in st.data
    ensures !s.Root? ==> Ptr(st.data, st.live[i].addrs, s.Parent()) in st.data
  {
    assert Holds(st.owner, Ptr(st.data, st.live[i].addrs, s), i, s);
    assert !s.Root? ==> Holds(st.owner, Ptr(st.data, st.live[i].addrs, s.Parent()), i, s.Parent());
    hide Ptr, FilesOk, TableOk;
  }

  lemma MappedFacts(st: State, st1: State, x: nat, i: nat, s: Slot, addr: nat)
    requires Mapped(st, st1, x, i, s, addr)
    ensures st1.slots == st.slots && i in st1.slots && Cached(st1.itable, st1.slots, i) && Inv(st1, x)
    ensures i < |st1.live| && addr == Ptr(st1.data, st1.live[i].addrs, s)
    ensures addr != 0 ==> addr in st1.data
  {
    hide Inv, Evolves, Ptr;
  }

  lemma MappedHung(st: State, st1: State, x: nat, i: nat, s: Slot, addr: nat)
    requires Mapped(st, st1, x, i, s, addr)
    ensures Hung(st, st1, i, s.Path())
  {
    hide Inv, Evolves, Ptr, Hung;
  }

  lemma MappedZero(st: State, st1: State, x: nat, i: nat, s: Slot)
    requires Mapped(st, st1, x, i, s, 0)
    ensures FullDisk(st1) && i < |st.live| && Ptr(st.data, st.live[i].addrs, s) == 0
  {
    hide Inv, Evolves, Ptr;
  }

  /** What a slot held it still holds, and the inode's other fields stay. */
  lemma GrownAt(st: State, st1: State, i: nat, s: Slot)
    requires Evolves(st, st1, 0) && Allocated(st.live, i)
    ensures st1.solid == st.solid && Allocated(st1.live, i)
    ensures Ptr(st.data, st.live[i].addrs, s) != 0 ==>
      Ptr(st1.data, st1.live[i].addrs, s) == Ptr(st.data, st.live[i].addrs, s)
  {
    hide Ptr, Evolved;
    assert Grown(st.data, st.live[i], st1.data, st1.live[i]);
  }

  lemma RootPtr(data: Disk, addrs: seq<Uint>, k: nat)
    requires k < |addrs|
    ensures Ptr(data, addrs, Root(k)) == addrs[k]
  {
  }

  /** After a level of the descent, the next slot may be asked for. */
  lemma CanMapBelow(st: State, st1: State, x: nat, i: nat, s: Slot, addr1: nat)
    requires !s.Root? && s.InRange() && Allocated(st.live, i)
    requires i in st.solid && Ptr(st.data, st.live[i].addrs, s) == 0 ==> x == i
    requires Mapped(st, st1, x, i, s.Parent(), addr1) && addr1 != 0
    ensures CanMap(st1, x, i, s)
  {
    hide Inv, Ptr, SameRefs, Mapped, Evolves, Hung, NoLeak, FullDisk, Cached;
    MappedParts(st, st1, x, i, s.Parent(), addr1);
    GrownAt(st, st1, i, s);
  }

  /** The two ancestors of a slot may be asked for whenever the slot may. */
  lemma CanMapRoot(st: State, x: nat, i: nat, s: Slot)
    requires Inv(st, x) && Cached(st.itable, st.slots, i) && Allocated(st.live, i) && s.InRange()
    requires i in st.solid && Ptr(st.data, st.live[i].addrs, s) == 0 ==> x == i
    ensures CanMap(st, x, i, Root(RootOf(s)))
    ensures s.Leaf? && i in st.solid && Ptr(st.data, st.live[i].addrs, s.Parent()) == 0 ==> x == i
  {
    hide Inv, Ptr;
    InvParts(st, x);
    var (data, addrs, k) := (st.data, st.live[i].addrs, RootOf(s));
    assert Ptr(data, addrs, Root(k)) == addrs[k] by { RootPtr(data, addrs, k); }
    if addrs[k] == 0 { NoRootNoPtr(data, addrs, s); }
    if s.Leaf? && Ptr(data, addrs, s) != 0 { BelowSomething(data, addrs, s); }
  }

  /** Reading an entry of a pointer block. */
  lemma EntryIs(data: Disk, addrs: seq<Uint>, s: Slot)
    requires !s.Root? && s.k < NINDIRECT && Ptr(data, addrs, s.Parent()) in data
    ensures Ptr(data, addrs, s) == Word(data[Ptr(data, addrs, s.Parent())], s.k)
  {
    hide Word;
  }

  /** Allocating and storing an entry of pointer block `b`, as three steps. */
  lemma EntryGrafted(st: State, x: nat, i: nat, s: Slot, a: Uint, b: nat, data': Disk)
    requires CanMap(st, x, i, s) && Ptr(st.data, st.live[i].addrs, s) == 0 && a != 0 && a in st.data && a !in st.marked
    requires !s.Root? && s.k < NINDIRECT && b == Ptr(st.data, st.live[i].addrs, s.Parent()) && b in st.data
    requires var zeroed := WithFresh(st, a).data; b in zeroed && data' == zeroed[b := SetWord(zeroed[b], s.k, a)]
    ensures WithGraft(WithFresh(st, a), i, s, a) ==
      WithFresh(st, a).(data := data', owner := st.owner[a := Owner(i, s)])
  {
    hide CanMap, Ptr, Word, SetWord, CanGraft, Inv, Cached, WithGraft;
    CanMapBasics(st, x, i, s);
    FreshCanGraft(st, x, i, s, a);
    GraftOutsideInode(WithFresh(st, a), i, s, a);
  }

  /** When the descent stops for lack of space, it stops for the slot below as well. */
  lemma MappedFails(st: State, st1: State, x: nat, i: nat, s: Slot)
    requires !s.Root? && Mapped(st, st1, x, i, s.Parent(), 0) && 0 !in st.data
    ensures Mapped(st, st1, x, i, s, 0)
  {
    hide Ptr, Inv, Evolves, Cached, Hung, SameRefs, FullDisk, NoLeak, Mapped;
    MappedParts(st, st1, x, i, s.Parent(), 0);
    InvParts(st1, x);
    HungWithin(st, st1, i, s.Parent().Path(), s.Path());
    if Ptr(st1.data, st1.live[i].addrs, s) != 0 { BelowSomething(st1.data, st1.live[i].addrs, s); }
    if Ptr(st.data, st.live[i].addrs, s) != 0 { BelowSomething(st.data, st.live[i].addrs, s); }
    MappedFrom(st, st1, x, i, s, 0);
  }

  lemma FreshCanGraft(st: State, x: nat, i: nat, s: Slot, a: Uint)
    requires CanMap(st, x, i, s) && Ptr(st.data, st.live[i].addrs, s) == 0 && a != 0 && a in st.data && a !in st.marked
    ensures CanGraft(WithFresh(st, a).data, st.live, st.owner, i, s, a)
    ensures !s.Root? ==>
      Ptr(WithFresh(st, a).data, st.live[i].addrs, s.Parent()) == Ptr(st.data, st.live[i].addrs, s.Parent())
  {
    WriteKeepsPtr(st.data, st.live, st.owner, a, Zeros(), i, s);
    if !s.Root? { WriteKeepsPtr(st.data, st.live, st.owner, a, Zeros(), i, s.Parent()); }
    hide Ptr, TableOk, FilesOk, Owned;
    WriteKeepsOwned(st.data, st.live, st.owner, a, Zeros());
  }

  lemma GraftKeepsNoLeak(st: State, i: nat, s: Slot, a: Uint)
    requires Held(st, i) && NoLeak(st)
    ensures NoLeak(WithGraft(WithFresh(st, a), i, s, a))
  {
    hide Ptr;
  }

  lemma CanMapSolid(st: State, x: nat, i: nat, s: Slot)
    requires CanMap(st, x, i, s) && Ptr(st.data, st.live[i].addrs, s) == 0
    ensures i in st.solid && s.Root? ==> x == i
  {
    hide Inv, Ptr;
  }

  /** balloc followed by the store of the new block number. */
  lemma AllocGraft(st: State, x: nat, i: nat, s: Slot, a: Uint)
    requires CanMap(st, x, i, s) && Ptr(st.data, st.live[i].addrs, s) == 0 && a != 0 && a in st.data && a !in st.marked
    ensures Mapped(st, WithGraft(WithFresh(st, a), i, s, a), x, i, s, a)
  {
    hide Ptr, Inv, Evolves, GraftData, CanGraft, NoLeak, TableOk, GraftInode, CanMap, Mapped, Hung, SameRefs, Cached,
         FullDisk;
    var (st1, st') := (WithFresh(st, a), WithGraft(WithFresh(st, a), i, s, a));
    CanMapBasics(st, x, i, s);
    CanMapHolds(st, x, i, s);
    CanMapSolid(st, x, i, s);
    FreshCanGraft(st, x, i, s, a);
    FreshKeepsInv(st, x, a);
    GraftKeepsInv(st1, x, i, s, a);
    EvolvesTransitive(st, st1, st', 0);
    if NoLeak(st) { GraftKeepsNoLeak(st, i, s, a); }
    GraftFrame(st1, i, s, a);
    MarkedBeforeOwned(st, x, a);
    HungGraft(st, i, s, a);
    MappedFrom(st, st', x, i, s, a);
  }

  lemma MarkedBeforeOwned(st: State, x: nat, a: nat)
    requires Inv(st, x) && a !in st.marked
    ensures a !in st.owner
  {
    hide Owned, TableOk, FilesOk;
  }

  lemma GraftFrame(st: State, i: nat, s: Slot, a: Uint)
    requires Held(st, i) && Cached(st.itable, st.slots, i)
    ensures var st' := WithGraft(st, i, s, a);
      && st'.slots == st.slots && SameRefs(st.itable, st'.itable) && Cached(st'.itable, st'.slots, i)
      && |st'.live| == |st.live|
      && (a in st.data ==> a in st'.data)
  {
    hide Ptr;
  }

  lemma SameRefsTwice(t: seq<MemInode>, t1: seq<MemInode>, t2: seq<MemInode>)
    requires SameRefs(t, t1) && SameRefs(t1, t2)
    ensures SameRefs(t, t2)
  {
    forall s | 0 <= s < |t| ensures t2[s] == t[s].(d := t2[s].d) { assert t1[s] == t[s].(d := t1[s].d); }
  }

  lemma BelowSomething(data: Disk, addrs: seq<Uint>, s: Slot)
    requires !s.Root? && 0 !in data && Ptr(data, addrs, s) != 0
    ensures Ptr(data, addrs, s.Parent()) != 0
  {
  }

  /** Descending one level: first the block the slot lives in, then the slot. */
  lemma MappedTransitive(st: State, st1: State, st2: State, x: nat, i: nat, s: Slot, addr1: nat, addr: nat)
    requires !s.Root? && 0 !in st.data
    requires Mapped(st, st1, x, i, s.Parent(), addr1) && Mapped(st1, st2, x, i, s, addr)
    ensures Mapped(st, st2, x, i, s, addr)
  {
    hide Ptr, Inv, Evolves, Cached, Hung, SameRefs, FullDisk, NoLeak, Mapped;
    MappedParts(st, st1, x, i, s.Parent(), addr1);
    MappedParts(st1, st2, x, i, s, addr);
    EvolvesTransitive(st, st1, st2, 0);
    HungTransitive(st, st1, st2, i, s.Parent().Path(), s.Path(), s.Path());
    SameRefsTwice(st.itable, st1.itable, st2.itable);
    if Ptr(st.data, st.live[i].addrs, s) != 0 { BelowSomething(st.data, st.live[i].addrs, s); }
    MappedFrom(st, st2, x, i, s, addr);
  }

  /** writei copying into a block of file `i`, which is being updated. */
  function WithData(st: State, b: nat, blk: Block): State { st.(data := st.data[b := blk]) }

  lemma HungData(st: State, st1: State, b: nat, blk: Block, i: nat, slots: set<Slot>)
    requires Hung(st, st1, i, slots) && b in st1.data
    ensures Hung(st, WithData(st1, b, blk), i, slots)
  {
  }

  lemma DataWriteKeepsInv(st: State, i: nat, bn: nat, blk: Block)
    requires Inv(st, i) && i != 0 && Allocated(st.live, i) && bn < MAXFILE
    requires Ptr(st.data, st.live[i].addrs, SlotOf(bn)) in st.data
    ensures var st' := WithData(st, Ptr(st.data, st.live[i].addrs, SlotOf(bn)), blk);
      && Inv(st', i) && Evolves(st, st', i)
      && (forall bm: nat :: bm < MAXFILE ==>
            FileBlock(st'.data, st.live[i].addrs, bm) ==
              if bm == bn then blk else FileBlock(st.data, st.live[i].addrs, bm))
  {
    var b := Ptr(st.data, st.live[i].addrs, SlotOf(bn));
    var st' := WithData(st, b, blk);
    SlotOfFacts(bn);
    assert Holds(st.owner, b, i, SlotOf(bn));
    WriteKeepsOwned(st.data, st.live, st.owner, b, blk);
    DataWriteEvolves(st, i, bn, blk);
    forall bm: nat | bm < MAXFILE
      ensures FileBlock(st'.data, st.live[i].addrs, bm) ==
        if bm == bn then blk else FileBlock(st.data, st.live[i].addrs, bm)
    {
      DataWrite(st.data, st.live, st.owner, i, bn, blk, i, bm);
    }
    hide Owned, Evolved, InodeOk, Dense, Ptr, FileBlock, SlotOf, TableOk, Cached;
    InvStable(st, st', i);
  }

  lemma DataWriteEvolves(st: State, i: nat, bn: nat, blk: Block)
    requires Inv(st, i) && i != 0 && Allocated(st.live, i) && bn < MAXFILE
    requires Ptr(st.data, st.live[i].addrs, SlotOf(bn)) in st.data
    ensures Evolves(st, WithData(st, Ptr(st.data, st.live[i].addrs, SlotOf(bn)), blk), i)
  {
    var b := Ptr(st.data, st.live[i].addrs, SlotOf(bn));
    var st' := WithData(st, b, blk);
    SlotOfFacts(bn);
    assert Holds(st.owner, b, i, SlotOf(bn));
    hide SlotOf, TableOk, InodeOk, Dense, FileBlock;
    forall j: nat | j < |st.live|
      ensures Grown(st.data, st.live[j], st'.data, st.live[j])
      ensures Settled(j, i) ==> Evolved(st.data, st.live[j], st'.data, st.live[j])
    {
      if st.live[j].typ != 0 {
        forall t
          ensures Ptr(st'.data, st.live[j].addrs, t) == Ptr(st.data, st.live[j].addrs, t)
        {
          WriteKeepsPtr(st.data, st.live, st.owner, b, blk, j, t);
        }
        if j != i {
          forall bm: nat | bm < MAXFILE
            ensures FileBlock(st'.data, st.live[j].addrs, bm) == FileBlock(st.data, st.live[j].addrs, bm)
          {
            DataWrite(st.data, st.live, st.owner, i, bn, blk, j, bm);
          }
        }
      }
      hide Ptr, Owned;
    }
  }

  ghost predicate SameBut<T>(s: seq<T>, t: seq<T>, i: nat)
  {
    |t| == |s| && forall j {:trigger t[j]} :: 0 <= j < |s| && j != i ==> t[j] == s[j]
  }

  /** Of blocks and inodes only inode `i` has changed; the disk has it as it is. */
  ghost predicate OnlyInode(st: State, st': State, i: nat)
  {
    && st'.data == st.data && st'.marked == st.marked && st'.owner == st.owner
    && SameBut(st.live, st'.live, i) && SameBut(st.inodes, st'.inodes, i)
    && i < |st'.live| && i < |st'.inodes| && st'.inodes[i] == st'.live[i]
  }

  lemma OnlyInodeTwice(st: State, st1: State, st2: State, i: nat)
    requires OnlyInode(st, st1, i) && OnlyInode(st1, st2, i)
    ensures OnlyInode(st, st2, i)
  {
  }

  lemma OnlyInodeTidy(st: State, st': State, i: nat)
    requires OnlyInode(st, st', i) && Tidy(st)
    ensures Tidy(st')
  {
    assert forall j :: 0 <= j < |st'.live| ==> st'.inodes[j] == st'.live[j];
  }

  /** A step that leaves alone the data blocks and all inodes but `i`, which is in the middle
      of an update before it if x != 0, and after it if y != 0. */
  ghost predicate OneInode(st: State, st': State, i: nat, x: nat, y: nat)
  {
    && (x == 0 || x == i) && (y == 0 || y == i) && Exists(st, i) && st'.data == st.data
    && SameBut(st.live, st'.live, i) && SameBut(st.inodes, st'.inodes, i) && SameBut(st.files, st'.files, i)
    && (forall j: nat {:trigger Cached(st'.itable, st'.slots, j)} ::
          j != i && Cached(st.itable, st.slots, j) ==> Cached(st'.itable, st'.slots, j))
    && (Cached(st'.itable, st'.slots, i) || st'.inodes[i] == st'.live[i])
    && (y == 0 ==> InodeOk(st.data, st'.inodes[i], st'.live[i], st'.files[i]))
    && st'.solid <= st.solid + {i}
    && (i in st'.solid ==>
       Allocated(st'.live, i) && Dense(st.data, st'.live[i]) && (y == 0 ==> st'.inodes[i] == st'.live[i]))
  }

  lemma OneInodeKeepsFiles(st: State, st': State, i: nat, x: nat, y: nat)
    requires FilesOk(st, x) && OneInode(st, st', i, x, y)
    ensures FilesOk(st', y)
  {
    hide InodeOk, Dense, Cached;
    forall j: nat | j < |st'.live|
      ensures Settled(j, y) ==> InodeOk(st'.data, st'.inodes[j], st'.live[j], st'.files[j])
      ensures !Cached(st'.itable, st'.slots, j) ==> st'.inodes[j] == st'.live[j]
    {
      if j != i { assert st'.live[j] == st.live[j] && st'.inodes[j] == st.inodes[j] && st'.files[j] == st.files[j]; }
    }
    forall j | j in st'.solid
      ensures Allocated(st'.live, j) && Dense(st'.data, st'.live[j])
      ensures j < |st'.live| && Settled(j, y) ==> st'.inodes[j] == st'.live[j]
    {
      if j != i { assert j in st.solid && st'.live[j] == st.live[j] && st'.inodes[j] == st.inodes[j]; }
    }
  }

  lemma InvParts(st: State, x: nat)
    requires Inv(st, x)
    ensures TreesOk(st) && Owned(st.data, st.live, st.owner) && TableOk(st.itable, st.slots, st.live) && FilesOk(st, x)
    ensures |st.live| == |st.inodes| == |st.files| && (x != 0 ==> Cached(st.itable, st.slots, x))
    ensures 0 !in st.data && |st.itable| == NINODE
  {
    hide Ptr, InodeOk, Dense, Cached;
  }

  /** Assigning fields of the in-memory inode `i`, other than addrs. */
  ghost function WithFields(st: State, i: nat, d: Dinode): State
  {
    if !Held(st, i) then st else
    st.(live := st.live[i := d], itable := st.itable[st.slots[i] := st.itable[st.slots[i]].(d := d)])
  }

  lemma FieldsKeepInv(st: State, i: nat, d: Dinode)
    requires Inv(st, i) && i != 0 && Allocated(st.live, i)
    requires d.typ != 0 && d.addrs == st.live[i].addrs && (i in st.solid ==> Dense(st.data, d))
    ensures Cached(st.itable, st.slots, i) && Inv(WithFields(st, i, d), i)
  {
    hide Inv, TreesOk, Owned, TableOk, FilesOk, InodeOk, Dense, Cached;
    InvParts(st, i);
    var st' := WithFields(st, i, d);
    CachedIsHeld(st, i);
    SameAddrsKeepsOwned(st.data, st.live, st.owner, i, d);
    UpdateKeepsTable(st.itable, st.slots, st.live, i, d);
    assert OneInode(st, st', i, i, i);
    hide OneInode;
    OneInodeKeepsFiles(st, st', i, i, i);
    TreesFrom(st, st');
    InvFrom(st', i);
  }

  lemma CachedIsHeld(st: State, i: nat)
    requires Cached(st.itable, st.slots, i) && Exists(st, i)
    ensures Held(st, i)
  {
  }

  lemma TreesFrom(st: State, st': State)
    requires TreesOk(st) && Owned(st'.data, st'.live, st'.owner) && st'.owner == st.owner && st'.marked == st.marked
    ensures TreesOk(st')
  {
    hide Owned;
  }

  /** When the inode loses its blocks, only they lose their marks. */
  lemma TreesWithout(st: State, st': State, i: nat)
    requires Owned(st'.data, st'.live, st'.owner) && st'.owner == OwnerWithout(st.owner, i)
    requires forall b :: b in OwnerWithout(st.owner, i) ==> b in st'.marked
    ensures TreesOk(st')
  {
    hide Owned, OwnerWithout;
  }

  lemma InvFrom(st: State, x: nat)
    requires TreesOk(st) && TableOk(st.itable, st.slots, st.live) && FilesOk(st, x)
      && (x != 0 ==> Cached(st.itable, st.slots, x))
    ensures Inv(st, x)
  {
  }

  /** iupdate: the disk copy catches up and the update is over. */
  ghost function WithSync(st: State, i: nat): State
  {
    if !Exists(st, i) then st else
    st.(inodes := st.inodes[i := st.live[i]], files := st.files[i := FileOf(st.data, st.live[i])])
  }

  lemma SyncKeepsInv(st: State, i: nat)
    requires Inv(st, i) && i != 0 && Allocated(st.live, i)
    requires st.live[i].size <= MAXBYTES && ZeroTail(st.data, st.live[i])
    ensures Inv(WithSync(st, i), 0)
  {
    hide Inv, TreesOk, Owned, TableOk, FilesOk, Shadow, ZeroTail, Content, Dense, Cached;
    var (d, st') := (st.live[i], WithSync(st, i));
    InvParts(st, i);
    ShadowOfItself(st.data, d);
    assert InodeOk(st.data, d, d, FileOf(st.data, d));
    hide InodeOk, FileOf;
    if i in st.solid { SolidIsDense(st, i, i); }
    assert OneInode(st, st', i, i, 0);
    hide OneInode;
    OneInodeKeepsFiles(st, st', i, i, 0);
    TreesFrom(st, st');
    InvFrom(st', 0);
  }

  /** An update may start at any cached inode. */
  lemma StartUpdate(st: State, i: nat)
    requires Inv(st, 0) && Cached(st.itable, st.slots, i)
    ensures Inv(st, i) && 0 < i && Allocated(st.live, i)
    ensures st.itable[st.slots[i]].d == st.live[i] && st.itable[st.slots[i]].inum == i
  {
    assert SlotOk(st.itable, st.slots[i], st.live, i);
    hide Owned, TableOk, InodeOk, Dense;
  }

  // ---------- freeing ----------

  /** The blocks reachable from inode `i`. */
  ghost function BlocksOf(owner: map<nat, Owner>, i: nat): set<nat>
  {
    set b | b in owner && owner[b].inum == i
  }

  ghost function OwnerWithout(owner: map<nat, Owner>, i: nat): map<nat, Owner>
  {
    map b | b in owner && owner[b].inum != i :: owner[b]
  }

  /** BlocksOf is what it says: the block numbers in the slots of the inode. */
  lemma BlocksOfAreReachable(st: State, x: nat, i: nat, b: nat)
    requires Inv(st, x) && Allocated(st.live, i)
    ensures b in BlocksOf(st.owner, i) <==> b != 0 && exists s :: Ptr(st.data, st.live[i].addrs, s) == b
  {
    hide Ptr, TableOk, InodeOk, Dense;
    if b in BlocksOf(st.owner, i) {
      assert Ptr(st.data, st.live[i].addrs, st.owner[b].slot) == b;
    }
    if s :| b != 0 && Ptr(st.data, st.live[i].addrs, s) == b {
      assert Holds(st.owner, Ptr(st.data, st.live[i].addrs, s), i, s);
    }
  }

  /** The inode itrunc leaves: addrs[NDIRECT + 1] is never cleared, because line 647 of
      fs.c clears addrs[NDIRECT] a second time instead. */
  function Truncated(d: Dinode): Dinode
  {
    d.(size := 0, addrs := NOADDRS[NDIRECT + 1 := d.addrs[NDIRECT + 1]])
  }

  ghost function WithTrunc(st: State, i: nat): State
  {
    if !Held(st, i) then st else var d := Truncated(st.live[i]);
    st.(marked := st.marked - BlocksOf(st.owner, i), inodes := st.inodes[i := d], live := st.live[i := d],
        itable := st.itable[st.slots[i] := st.itable[st.slots[i]].(d := d)],
        owner := OwnerWithout(st.owner, i), files := st.files[i := FileOf(st.data, d)])
  }

  /** itrunc as its steps: the marks, the inode in memory, and iupdate. */
  lemma TruncSynced(st: State, st1: State, i: nat)
    requires Held(st, i) && st1.data == st.data && st1.inodes == st.inodes && st1.files == st.files
      && st1.solid == st.solid
    requires st1.marked == st.marked - BlocksOf(st.owner, i) && st1.owner == OwnerWithout(st.owner, i)
      && st1.slots == st.slots
    requires st1.live == st.live[i := Truncated(st.live[i])]
    requires st1.itable == st.itable[st.slots[i] := st.itable[st.slots[i]].(d := Truncated(st.live[i]))]
    ensures WithSync(st1, i) == WithTrunc(st, i)
  {
    hide BlocksOf, OwnerWithout, FileOf, Truncated;
  }

  /** What itrunc leaves in the table. */
  lemma TruncFacts(st: State, i: nat)
    requires Held(st, i)
    ensures var st' := WithTrunc(st, i);
      && st'.slots == st.slots && |st'.itable| == |st.itable| && |st'.live| == |st.live|
      && st'.live[i] == Truncated(st.live[i]) && Held(st', i)
      && st'.itable[st.slots[i]] == st.itable[st.slots[i]].(d := Truncated(st.live[i]))
  {
    hide BlocksOf, OwnerWithout, FileOf, Truncated;
  }

  /** iupdate leaves memory alone. */
  lemma SyncFacts(st: State, i: nat)
    ensures var st' := WithSync(st, i);
      st'.itable == st.itable && st'.slots == st.slots && st'.live == st.live && st'.solid == st.solid
  {
    hide FileOf;
  }

  lemma NoZeroBlock(st: State, x: nat)
    requires Inv(st, x)
    ensures 0 !in st.data && 0 !in st.owner
  {
  }

  lemma TruncatedHasNoBlocks(data: Disk, d: Dinode, s: Slot)
    requires 0 !in data && d.addrs[NDIRECT + 1] == 0
    ensures Ptr(data, Truncated(d).addrs, s) == 0
  {
    assert Truncated(d).addrs == NOADDRS;
    EmptyInodeHasNoBlocks(data, 0, s);
    hide Ptr;
  }

  lemma RemainingWithoutBlocks(data: Disk, owner: map<nat, Owner>, i: nat, d: Dinode)
    requires 0 !in owner
    requires d.typ != 0 ==> forall s :: Ptr(data, d.addrs, s) == 0
    ensures Remaining(data, owner, i, d) == OwnerWithout(owner, i)
  {
    hide Ptr;
  }

  /** When inode `i` becomes one without blocks, everything else stays owned and marked. */
  lemma ClearingKeepsOwned(st: State, i: nat, d: Dinode)
    requires Inv(st, 0) && i < |st.live|
    requires d.typ != 0 ==> forall s :: Ptr(st.data, d.addrs, s) == 0
    ensures Owned(st.data, st.live[i := d], OwnerWithout(st.owner, i))
    ensures forall b :: b in OwnerWithout(st.owner, i) ==> b in st.marked - BlocksOf(st.owner, i)
  {
    forall s ensures Within(st.data, st.live, i, d, s) { hide Ptr; }
    hide Ptr, TableOk, InodeOk, Dense;
    ShrinkKeepsOwned(st.data, st.live, st.owner, i, d);
    RemainingWithoutBlocks(st.data, st.owner, i, d);
  }

  /** An inode without blocks is in order by itself. */
  lemma NoBlocksOk(data: Disk, d: Dinode)
    requires 0 !in data && d.typ != 0 && d.size == 0
    requires forall s :: Ptr(data, d.addrs, s) == 0
    ensures InodeOk(data, d, d, FileOf(data, d)) && Dense(data, d)
    ensures FileOf(data, d) == File(d.typ, d.major, d.minor, d.nlink, [])
  {
    ShadowOfItself(data, d);
    hide Ptr, Shadow;
  }

  lemma TruncKeepsInv(st: State, i: nat)
    requires Inv(st, 0) && Cached(st.itable, st.slots, i) && Allocated(st.live, i)
    requires st.live[i].addrs[NDIRECT + 1] == 0
    ensures Inv(WithTrunc(st, i), 0)
  {
    hide Inv, TreesOk, Owned, TableOk, FilesOk, InodeOk, Dense, Cached, Ptr, FileOf, OwnerWithout, BlocksOf;
    var (d, st') := (Truncated(st.live[i]), WithTrunc(st, i));
    InvParts(st, 0);
    NoZeroBlock(st, 0);
    CachedIsHeld(st, i);
    forall s ensures Ptr(st.data, d.addrs, s) == 0 { TruncatedHasNoBlocks(st.data, st.live[i], s); }
    ClearingKeepsOwned(st, i, d);
    NoBlocksOk(st.data, d);
    UpdateKeepsTable(st.itable, st.slots, st.live, i, d);
    assert OneInode(st, st', i, 0, 0);
    hide OneInode, Truncated;
    OneInodeKeepsFiles(st, st', i, 0, 0);
    TreesWithout(st, st', i);
    InvFrom(st', 0);
  }

  lemma TruncStillPoints(st: State, i: nat)
    requires Inv(st, 0) && Cached(st.itable, st.slots, i) && Allocated(st.live, i)
    ensures var st' := WithTrunc(st, i);
      Allocated(st'.live, i) && Ptr(st'.data, st'.live[i].addrs, Root(NDIRECT + 1)) == st.live[i].addrs[NDIRECT + 1]
    ensures forall b {:trigger b in WithTrunc(st, i).owner} :: b in WithTrunc(st, i).owner ==>
      WithTrunc(st, i).owner[b].inum != i
  {
    InvParts(st, 0);
    CachedIsHeld(st, i);
    hide Inv, FileOf;
  }

  /** What itrunc does, in numbers: the blocks the inode's pointers lead to, and only they, lose
      their marks; the size is 0 and so are the first twelve block numbers, on the disk too, while
      the thirteenth stays; and no other inode changes. */
  lemma TruncGives(st: State, i: nat, b: nat)
    requires Inv(st, 0) && Held(st, i) && Allocated(st.live, i)
    ensures var st' := WithTrunc(st, i);
      && |st'.live| == |st.live| && |st'.inodes| == |st.inodes|
      && st'.live[i].size == 0 && st'.inodes[i] == st'.live[i]
      && (forall k :: 0 <= k < 12 ==> st'.live[i].addrs[k] == 0)
      && st'.live[i].addrs[12] == st.live[i].addrs[12]
      && (forall j :: 0 <= j < |st.live| && j != i ==> st'.live[j] == st.live[j])
    ensures b in WithTrunc(st, i).marked <==>
      b in st.marked && !(b != 0 && exists s :: Ptr(st.data, st.live[i].addrs, s) == b)
  {
    hide Inv, Ptr, BlocksOf, OwnerWithout, FileOf;
    BlocksOfAreReachable(st, 0, i, b);
  }

  /** itrunc leaves a sound file system just when the inode had no double-indirect
      block: otherwise a live pointer to a freed block stays behind. */
  lemma TruncIsSoundIff(st: State, i: nat)
    requires Inv(st, 0) && Cached(st.itable, st.slots, i) && Allocated(st.live, i)
    ensures Inv(WithTrunc(st, i), 0) <==> st.live[i].addrs[NDIRECT + 1] == 0
  {
    hide Inv, WithTrunc;
    if st.live[i].addrs[NDIRECT + 1] == 0 {
      TruncKeepsInv(st, i);
    } else if Inv(WithTrunc(st, i), 0) {
      TruncStillPoints(st, i);
      HoldsAt(WithTrunc(st, i), i, Root(NDIRECT + 1));
    }
  }

  // ---------- the order in which itrunc frees ----------

  /** Position of a slot in itrunc's traversal: the direct blocks; the entries of the
      indirect block, then that block; below the double-indirect block, for each middle
      block its leaves and then itself; the double-indirect block last. */
  function Rank(s: Slot): nat
  {
    match s
    case Root(k) => if k < NDIRECT then k else if k == NDIRECT then 267 else if k == NDIRECT + 1 then 66060
      else 66061 + k
    case Entry(j) => NDIRECT + j
    case Mid(m) => 268 + 257 * m + 256
    case Leaf(m, j) => 268 + 257 * m + j
  }

  const RANKS: nat := 66061

  lemma RankInjective(s: Slot, t: Slot)
    requires s.InRange() && t.InRange() && Rank(s) == Rank(t)
    ensures s == t
  {
  }

  lemma OwnedInRange(st: State, x: nat, b: nat)
    requires Inv(st, x) && b in st.owner
    ensures st.owner[b].slot.InRange() && Rank(st.owner[b].slot) < RANKS
    ensures b in st.data && b in st.marked && b != 0 && Allocated(st.live, st.owner[b].inum)
    ensures Ptr(st.data, st.live[st.owner[b].inum].addrs, st.owner[b].slot) == b
  {
    hide TableOk, FilesOk;
    PtrInRange(st.data, st.live[st.owner[b].inum].addrs, st.owner[b].slot);
    hide Ptr;
  }

  lemma PtrInRange(data: Disk, addrs: seq<Uint>, s: Slot)
    requires |addrs| == NADDR && 0 !in data && Ptr(data, addrs, s) != 0
    ensures s.InRange()
  {
    if s.Leaf? { assert Ptr(data, addrs, Mid(s.mid)) != 0; }
  }

  /** The blocks of inode `i` whose slots come before position `r`. */
  ghost function FreedBefore(owner: map<nat, Owner>, i: nat, r: nat): set<nat>
  {
    set b | b in owner && owner[b].inum == i && Rank(owner[b].slot) < r
  }

  /** Passing slot `s` frees exactly the block it holds, which was still marked. */
  lemma FreedNext(st: State, i: nat, s: Slot)
    requires Inv(st, 0) && Allocated(st.live, i) && s.InRange()
    ensures FreedBefore(st.owner, i, Rank(s) + 1)
      == FreedBefore(st.owner, i, Rank(s))
        + (if Ptr(st.data, st.live[i].addrs, s) == 0 then {} else {Ptr(st.data, st.live[i].addrs, s)})
    ensures Ptr(st.data, st.live[i].addrs, s) != 0 ==>
      Ptr(st.data, st.live[i].addrs, s) in st.data
        && Ptr(st.data, st.live[i].addrs, s) in st.marked - FreedBefore(st.owner, i, Rank(s))
  {
    hide Inv, Ptr, Rank;
    var b := Ptr(st.data, st.live[i].addrs, s);
    HoldsAt(st, i, s);
    forall c | c in st.owner && st.owner[c].inum == i && Rank(st.owner[c].slot) == Rank(s)
      ensures c == b && c != 0
    {
      OwnedInRange(st, 0, c);
      RankInjective(st.owner[c].slot, s);
    }
    var (before, after) := (FreedBefore(st.owner, i, Rank(s)), FreedBefore(st.owner, i, Rank(s) + 1));
    assert forall c :: c in after <==> c in before || (c == b && b != 0);
  }

  lemma HoldsAt(st: State, i: nat, s: Slot)
    requires Inv(st, 0) && Allocated(st.live, i)
    ensures Holds(st.owner, Ptr(st.data, st.live[i].addrs, s), i, s)
    ensures Ptr(st.data, st.live[i].addrs, s) != 0 ==>
      Ptr(st.data, st.live[i].addrs, s) in st.data && Ptr(st.data, st.live[i].addrs, s) in st.marked
  {
    hide Ptr, TableOk, FilesOk;
    assert Holds(st.owner, Ptr(st.data, st.live[i].addrs, s), i, s);
  }

  /** Slots that hold nothing free nothing. */
  lemma FreedSkip(st: State, i: nat, lo: nat, hi: nat)
    requires Inv(st, 0) && Allocated(st.live, i) && lo <= hi
    requires forall s: Slot :: s.InRange() && lo <= Rank(s) < hi ==> Ptr(st.data, st.live[i].addrs, s) == 0
    ensures FreedBefore(st.owner, i, hi) == FreedBefore(st.owner, i, lo)
  {
    hide Inv, Ptr, Rank;
    forall b | b in st.owner && st.owner[b].inum == i
      ensures !(lo <= Rank(st.owner[b].slot) < hi)
    {
      OwnedInRange(st, 0, b);
    }
  }

  /** No addrs[k], no blocks below it. */
  lemma SkipRoot(st: State, i: nat, k: nat)
    requires Inv(st, 0) && Allocated(st.live, i) && (k == NDIRECT || k == NDIRECT + 1) && st.live[i].addrs[k] == 0
    ensures FreedBefore(st.owner, i, if k == NDIRECT then 268 else RANKS) ==
      FreedBefore(st.owner, i, if k == NDIRECT then NDIRECT else 268)
  {
    hide Inv, Ptr;
    NoZeroBlock(st, 0);
    forall s: Slot | s.InRange() && RootOf(s) == k
      ensures Ptr(st.data, st.live[i].addrs, s) == 0
    {
      NoRootNoPtr(st.data, st.live[i].addrs, s);
    }
    FreedSkip(st, i, if k == NDIRECT then NDIRECT else 268, if k == NDIRECT then 268 else RANKS);
  }

  lemma SkipMid(st: State, i: nat, m: nat)
    requires Inv(st, 0) && Allocated(st.live, i) && m < NINDIRECT && Ptr(st.data, st.live[i].addrs, Mid(m)) == 0
    ensures FreedBefore(st.owner, i, 268 + 257 * (m + 1)) == FreedBefore(st.owner, i, 268 + 257 * m)
  {
    hide Inv;
    NoZeroBlock(st, 0);
    forall s: Slot | s.InRange() && 268 + 257 * m <= Rank(s) < 268 + 257 * (m + 1)
      ensures Ptr(st.data, st.live[i].addrs, s) == 0
    {
      assert s == Mid(m) || (s.Leaf? && s.mid == m);
    }
    hide Ptr, Rank;
    FreedSkip(st, i, 268 + 257 * m, 268 + 257 * (m + 1));
  }

  lemma FreedAll(st: State, i: nat)
    requires Inv(st, 0)
    ensures FreedBefore(st.owner, i, RANKS) == BlocksOf(st.owner, i) && FreedBefore(st.owner, i, 0) == {}
  {
    hide Inv, Rank;
    forall b | b in st.owner ensures Rank(st.owner[b].slot) < RANKS { OwnedInRange(st, 0, b); }
  }

  // ---------- the inode table ----------

  /** A step that changes only the table of inodes, and unloads none. */
  lemma TableStepKeepsInv(st: State, st': State)
    requires Inv(st, 0) && st' == st.(itable := st'.itable, slots := st'.slots)
      && TableOk(st'.itable, st'.slots, st.live)
    requires forall j: nat {:trigger Cached(st'.itable, st'.slots, j)} :: Cached(st.itable, st.slots, j) ==>
      Cached(st'.itable, st'.slots, j)
    ensures Inv(st', 0)
  {
    hide TreesOk, TableOk, InodeOk, Dense, Cached;
    forall i: nat | i < |st.live| && !Cached(st'.itable, st'.slots, i) ensures st.inodes[i] == st.live[i] {
      assert st.live[i] == st.live[i];
    }
    assert forall i: nat :: i < |st.live| ==> InodeOk(st.data, st.inodes[i], st.live[i], st.files[i]);
    assert TreesOk(st') by { SameTrees(st, st'); }
  }

  lemma SameTrees(st: State, st': State)
    requires TreesOk(st) && st'.data == st.data && st'.live == st.live && st'.owner == st.owner
      && st'.marked == st.marked
    ensures TreesOk(st')
  {
    hide Owned;
  }

  lemma HeldFacts(st: State, i: nat)
    requires Inv(st, 0) && Cached(st.itable, st.slots, i)
    ensures Held(st, i) && SlotOk(st.itable, st.slots[i], st.live, i) && |st.live| == |st.inodes|
  {
    hide TreesOk;
  }

  /** iget claiming an empty table entry. */
  function WithEntry(st: State, s: nat, i: nat): State
  {
    if s >= |st.itable| then st else
    st.(itable := st.itable[s := MemInode(i, 1, false, st.itable[s].d)], slots := st.slots[i := s])
  }

  lemma EntryKeepsTable(itable: seq<MemInode>, slots: Slots, live: seq<Dinode>, s: nat, i: nat, d: Dinode)
    requires TableOk(itable, slots, live) && s < NINODE && itable[s].ref == 0
    requires 0 < i && Allocated(live, i) && i !in slots
    ensures TableOk(itable[s := MemInode(i, 1, false, d)], slots[i := s], live)
    ensures forall j :: Cached(itable[s := MemInode(i, 1, false, d)], slots[i := s], j) == Cached(itable, slots, j)
  {
    var (itable', slots') := (itable[s := MemInode(i, 1, false, d)], slots[i := s]);
    forall j | j in slots'
      ensures SlotOk(itable', slots'[j], live, j)
      ensures Cached(itable', slots', j) == Cached(itable, slots, j)
    {
      if j != i { assert SlotOk(itable, slots[j], live, j); }
    }
  }

  lemma EntryKeepsInv(st: State, s: nat, i: nat)
    requires Inv(st, 0) && s < NINODE && st.itable[s].ref == 0
    requires 0 < i && Allocated(st.live, i) && i !in st.slots
    ensures Inv(WithEntry(st, s, i), 0)
  {
    hide Inv, TableOk, Cached;
    InvParts(st, 0);
    EntryKeepsTable(st.itable, st.slots, st.live, s, i, st.itable[s].d);
    TableStepKeepsInv(st, WithEntry(st, s, i));
  }

  /** Changing a positive reference count to another positive one. */
  function WithRef(st: State, s: nat, r: nat): State
  {
    if s >= |st.itable| then st else
    st.(itable := st.itable[s := st.itable[s].(ref := r)])
  }

  lemma RefKeepsInv(st: State, s: nat, r: nat)
    requires Inv(st, 0) && s < NINODE && st.itable[s].ref > 0 && r > 0
    ensures Inv(WithRef(st, s, r), 0)
  {
    hide Inv, TreesOk, FilesOk;
    InvParts(st, 0);
    var st' := WithRef(st, s, r);
    forall j | j in st'.slots
      ensures SlotOk(st'.itable, st'.slots[j], st'.live, j)
    {
      assert SlotOk(st.itable, st.slots[j], st.live, j);
    }
    hide SlotOk;
    assert forall j: nat :: Cached(st'.itable, st'.slots, j) == Cached(st.itable, st.slots, j);
    assert TableOk(st'.itable, st'.slots, st.live);
    hide TableOk, Cached;
    TableStepKeepsInv(st, st');
  }

  /** ilock loading the inode from disk. */
  function WithLoad(st: State, s: nat): State
  {
    if s >= |st.itable| || st.itable[s].inum >= |st.inodes| then st else
    st.(itable := st.itable[s := st.itable[s].(valid := true, d := st.inodes[st.itable[s].inum])])
  }

  lemma UncachedAlike(st: State, i: nat)
    requires Inv(st, 0) && i < |st.live| && !Cached(st.itable, st.slots, i)
    ensures i < |st.inodes| && st.inodes[i] == st.live[i]
  {
    hide TreesOk, TableOk, InodeOk, Dense, Cached;
    assert st.live[i] == st.live[i];
  }

  lemma LoadKeepsInv(st: State, s: nat)
    requires Inv(st, 0) && s < NINODE && st.itable[s].ref > 0 && !st.itable[s].valid
    ensures SlotOk(st.itable, s, st.live, st.itable[s].inum)
    ensures st.inodes[st.itable[s].inum] == st.live[st.itable[s].inum] && Inv(WithLoad(st, s), 0)
    ensures Cached(WithLoad(st, s).itable, st.slots, st.itable[s].inum)
  {
    hide Inv, TreesOk, FilesOk;
    InvParts(st, 0);
    var i := st.itable[s].inum;
    assert SlotOk(st.itable, st.slots[i], st.live, i);
    assert !Cached(st.itable, st.slots, i);
    UncachedAlike(st, i);
    var st' := WithLoad(st, s);
    forall j | j in st'.slots
      ensures SlotOk(st'.itable, st'.slots[j], st'.live, j)
    {
      assert SlotOk(st.itable, st.slots[j], st.live, j);
    }
    hide SlotOk;
    assert forall j: nat :: Cached(st.itable, st.slots, j) ==> Cached(st'.itable, st'.slots, j);
    assert TableOk(st'.itable, st'.slots, st.live);
    hide TableOk, Cached;
    TableStepKeepsInv(st, st');
  }

  /** ialloc claiming a free inode. */
  ghost function WithClaim(st: State, i: nat, typ: Short): State
  {
    if !Exists(st, i) then st else var d := EmptyInode(typ);
    st.(inodes := st.inodes[i := d], live := st.live[i := d], files := st.files[i := FileOf(st.data, d)],
      solid := st.solid + {i})
  }

  lemma FreeInodeOwnsNothing(st: State, i: nat)
    requires Inv(st, 0) && i < |st.live| && st.live[i].typ == 0
    ensures OwnerWithout(st.owner, i) == st.owner && i !in st.slots && i !in st.solid && st.inodes[i] == st.live[i]
  {
    hide Ptr, InodeOk, Dense;
    assert i in st.slots ==> SlotOk(st.itable, st.slots[i], st.live, i);
    assert !Cached(st.itable, st.slots, i);
    assert st.live[i] == st.live[i];
  }

  lemma EmptyInodeFields(typ: Short)
    ensures var d := EmptyInode(typ);
      d.typ == typ && d.size == 0 && d.major == 0 && d.minor == 0 && d.nlink == 0 && d.addrs == NOADDRS
  {
  }

  lemma ClaimKeepsTable(itable: seq<MemInode>, slots: Slots, live: seq<Dinode>, i: nat, d: Dinode)
    requires TableOk(itable, slots, live) && i < |live| && i !in slots
    ensures TableOk(itable, slots, live[i := d])
  {
    forall j | j in slots ensures SlotOk(itable, slots[j], live[i := d], j) {
      assert SlotOk(itable, slots[j], live, j);
    }
  }

  lemma ClaimKeepsInv(st: State, i: nat, typ: Short)
    requires Inv(st, 0) && i < |st.live| && st.live[i].typ == 0 && typ != 0
    ensures Inv(WithClaim(st, i, typ), 0)
    ensures WithClaim(st, i, typ).files[i] == File(typ, 0, 0, 0, [])
  {
    hide Inv, TreesOk, Owned, TableOk, FilesOk, InodeOk, Dense, Cached, Ptr, FileOf, OwnerWithout, BlocksOf, EmptyInode;
    var (d, st') := (EmptyInode(typ), WithClaim(st, i, typ));
    EmptyInodeFields(typ);
    InvParts(st, 0);
    NoZeroBlock(st, 0);
    forall s ensures Ptr(st.data, d.addrs, s) == 0 { EmptyInodeHasNoBlocks(st.data, typ, s); }
    FreeInodeOwnsNothing(st, i);
    ClearingKeepsOwned(st, i, d);
    NoBlocksOk(st.data, d);
    ClaimKeepsTable(st.itable, st.slots, st.live, i, d);
    assert OneInode(st, st', i, 0, 0);
    hide OneInode;
    OneInodeKeepsFiles(st, st', i, 0, 0);
    TreesFrom(st, st');
    InvFrom(st', 0);
  }

  // ---------- dropping the last reference ----------

  /** iput of the last reference to an unlinked inode. */
  ghost function WithFree(st: State, i: nat): State
  {
    if !Held(st, i) then st else var d := Truncated(st.live[i]).(typ := 0);
    st.(marked := st.marked - BlocksOf(st.owner, i), inodes := st.inodes[i := d], live := st.live[i := d],
        itable := st.itable[st.slots[i] := st.itable[st.slots[i]].(ref := 0, valid := false, d := d)],
        slots := st.slots - {i}, owner := OwnerWithout(st.owner, i), files := st.files[i := Free], solid :=
          st.solid - {i})
  }

  /** Freeing an inode as its steps: itrunc, the type, iupdate, and the end of the entry. */
  lemma TruncThenFree(st: State, st1: State, st2: State, i: nat)
    requires Held(st, i) && st.itable[st.slots[i]].ref == 1 && |st.live| == |st.inodes| == |st.files|
    requires var (t, d) := (WithTrunc(st, i), Truncated(st.live[i]).(typ := 0));
      st1 == t.(live := t.live[i := d], itable := t.itable[st.slots[i] := t.itable[st.slots[i]].(d := d)])
    requires var (u, e) := (WithSync(st1, i), st1.itable[st.slots[i]]);
      st2 == u.(itable := u.itable[st.slots[i] := e.(valid := false, ref := e.ref - 1)], slots := u.slots - {i},
        solid := u.solid - {i})
    ensures st2 == WithFree(st, i)
  {
    hide BlocksOf, OwnerWithout, Truncated;
    var d := Truncated(st.live[i]).(typ := 0);
    assert FileOf(st1.data, d) == Free;
  }

  lemma VacateKeepsTable(itable: seq<MemInode>, slots: Slots, live: seq<Dinode>, i: nat, e: MemInode, d: Dinode)
    requires TableOk(itable, slots, live) && i in slots && e.ref == 0
    ensures i < |live| && slots[i] < |itable|
    ensures TableOk(itable[slots[i] := e], slots - {i}, live[i := d])
    ensures forall j :: Cached(itable[slots[i] := e], slots - {i}, j) == (j != i && Cached(itable, slots, j))
  {
    assert SlotOk(itable, slots[i], live, i);
    var (itable', slots', live') := (itable[slots[i] := e], slots - {i}, live[i := d]);
    forall j | j in slots && j != i
      ensures slots[j] != slots[i] && SlotOk(itable', slots'[j], live', j)
    {
      assert SlotOk(itable, slots[j], live, j);
    }
    forall j: nat
      ensures Cached(itable', slots', j) == (j != i && Cached(itable, slots, j))
    {
      if j in slots && j != i { assert slots'[j] == slots[j] != slots[i]; }
    }
  }

  lemma FreeIsOk(data: Disk, d: Dinode)
    requires d.typ == 0
    ensures InodeOk(data, d, d, Free)
  {
  }

  lemma FreeKeepsInv(st: State, i: nat)
    requires Inv(st, 0) && Cached(st.itable, st.slots, i) && i < |st.live|
    ensures Inv(WithFree(st, i), 0)
  {
    hide Inv, TreesOk, Owned, TableOk, FilesOk, InodeOk, Dense, Cached, Ptr, OwnerWithout, BlocksOf, Truncated;
    var (d, st') := (Truncated(st.live[i]).(typ := 0), WithFree(st, i));
    InvParts(st, 0);
    CachedIsHeld(st, i);
    ClearingKeepsOwned(st, i, d);
    VacateKeepsTable(st.itable, st.slots, st.live, i, st'.itable[st.slots[i]], d);
    assert InodeOk(st.data, d, d, Free) by { FreeIsOk(st.data, d); }
    assert OneInode(st, st', i, 0, 0);
    hide OneInode;
    OneInodeKeepsFiles(st, st', i, 0, 0);
    TreesWithout(st, st', i);
    InvFrom(st', 0);
  }

  /** iput of the last reference to an inode that stays: whatever the table knew beyond
      the disk inode is forgotten. */
  ghost function WithDrop(st: State, i: nat): State
  {
    if !Held(st, i) then st else
    st.(live := st.live[i := st.inodes[i]], owner := Remaining(st.data, st.owner, i, st.inodes[i]),
        itable := st.itable[st.slots[i] := st.itable[st.slots[i]].(ref := 0)], slots := st.slots - {i})
  }

  /** The disk inode is one of the same file. */
  lemma OnDisk(st: State, i: nat)
    requires Inv(st, 0) && Allocated(st.live, i)
    ensures Exists(st, i) && Shadow(st.data, st.inodes[i], st.live[i])
      && InodeOk(st.data, st.inodes[i], st.inodes[i], st.files[i])
  {
    assert Exists(st, i) && InodeOk(st.data, st.inodes[i], st.live[i], st.files[i])
      by { hide TreesOk, TableOk, Dense; assert st.live[i] == st.live[i]; }
    InvParts(st, 0);
    hide Inv;
    ShadowSameFile(st.data, st.inodes[i], st.live[i]);
    ShadowOfItself(st.data, st.inodes[i]);
    hide ZeroTail, SameBlocks, Content, FileBlock;
  }

  lemma RemainingMarked(st: State, i: nat, d: Dinode)
    requires TreesOk(st)
    ensures forall b :: b in Remaining(st.data, st.owner, i, d) ==> b in st.marked
  {
    hide Owned, Ptr;
  }

  lemma TreesRemain(st: State, st': State, i: nat, d: Dinode)
    requires st'.owner == Remaining(st.data, st.owner, i, d) && st'.marked == st.marked
      && Owned(st'.data, st'.live, st'.owner)
    requires forall b :: b in Remaining(st.data, st.owner, i, d) ==> b in st.marked
    ensures TreesOk(st')
  {
    hide Owned, Remaining;
  }

  /** No file changes, although blocks bmap hung only into the in-memory inode are lost. */
  lemma DropKeepsInv(st: State, i: nat)
    requires Inv(st, 0) && i in st.slots && i < |st.live| && st.slots[i] < |st.itable|
    ensures Inv(WithDrop(st, i), 0)
  {
    hide Inv, TreesOk, Owned, TableOk, FilesOk, Dense, Cached, Ptr, Within, FileOf, ZeroTail, SameBlocks, Content;
    HeldIfReferenced(st, i);
    InvParts(st, 0);
    var (d0, st') := (st.inodes[i], WithDrop(st, i));
    OnDisk(st, i);
    forall s ensures Within(st.data, st.live, i, d0, s) { ShadowWithin(st.data, st.live, i, d0, s); }
    ShrinkKeepsOwned(st.data, st.live, st.owner, i, d0);
    VacateKeepsTable(st.itable, st.slots, st.live, i, st'.itable[st.slots[i]], d0);
    hide InodeOk, Shadow, Remaining;
    if i in st.solid { SolidSynced(st, i); SolidIsDense(st, 0, i); }
    assert OneInode(st, st', i, 0, 0);
    hide OneInode;
    OneInodeKeepsFiles(st, st', i, 0, 0);
    assert TreesOk(st') by { RemainingMarked(st, i, d0); TreesRemain(st, st', i, d0); }
    InvFrom(st', 0);
  }

  /** ... and whether any is lost is exactly whether memory had run ahead of the disk. */
  lemma DropLeaksIff(st: State, i: nat)
    requires Inv(st, 0) && NoLeak(st) && i in st.slots && i < |st.live| && st.slots[i] < |st.itable|
    ensures NoLeak(WithDrop(st, i)) <==> st.inodes[i] == st.live[i]
  {
    var (d0, d, st') := (st.inodes[i], st.live[i], WithDrop(st, i));
    assert st.live[i] == st.live[i] && SlotOk(st.itable, st.slots[i], st.live, i);
    hide TableOk, Dense, Cached, SlotOk, FileBlock, FileOf, ZeroTail;
    if d0 != d {
      assert d0.addrs != d.addrs;
      var k :| 0 <= k < NADDR && d0.addrs[k] != d.addrs[k];
      assert Ptr(st.data, d.addrs, Root(k)) == d.addrs[k] && Ptr(st.data, d0.addrs, Root(k)) == 0;
      assert Holds(st.owner, Ptr(st.data, d.addrs, Root(k)), i, Root(k));
      assert d.addrs[k] !in st'.owner;
    }
    hide Ptr;
  }

  // ---------- readi and writei ----------

  /** What readi may do to the state: no file changes, though an inode may gain blocks. */
  ghost predicate Quiet(st: State, st': State, i: nat)
  {
    && Inv(st', 0) && Evolves(st, st', 0)
    && st'.slots == st.slots && SameRefs(st.itable, st'.itable) && Cached(st'.itable, st'.slots, i)
    && (i in st.solid ==> st' == st) && (NoLeak(st) ==> NoLeak(st'))
  }

  lemma QuietStart(st: State, i: nat)
    requires Inv(st, 0) && Cached(st.itable, st.slots, i)
    ensures Quiet(st, st, i) && Allocated(st.live, i) && i < |st.files|
    ensures st.files[i].File? && |st.files[i].bytes| == st.live[i].size <= MAXBYTES
    ensures st.itable[st.slots[i]].d == st.live[i]
  {
    assert SlotOk(st.itable, st.slots[i], st.live, i);
    assert InodeOk(st.data, st.inodes[i], st.live[i], st.files[i]);
    hide Inv, Ptr, FileBlock, FileByte;
  }

  lemma QuietStep(st: State, st1: State, st2: State, i: nat, s: Slot, addr: nat)
    requires Quiet(st, st1, i) && Mapped(st1, st2, 0, i, s, addr) && i < |st1.live|
    requires i in st.solid ==> Ptr(st1.data, st1.live[i].addrs, s) != 0
    ensures Quiet(st, st2, i)
  {
    EvolvesTransitive(st, st1, st2, 0);
    hide Inv, Evolves, Ptr, Cached;
  }

  lemma QuietFacts(st: State, st': State, i: nat)
    requires Quiet(st, st', i)
    ensures Inv(st', 0) && Cached(st'.itable, st'.slots, i) && st'.files == st.files
    ensures st'.slots == st.slots && st'.solid == st.solid
    ensures Allocated(st'.live, i) && i < |st'.files| && st'.files[i].File?
    ensures |st'.files[i].bytes| == st'.live[i].size <= MAXBYTES
  {
    hide Inv;
    QuietStart(st', i);
  }

  lemma QuietTransitive(st: State, st1: State, st2: State, i: nat)
    requires Quiet(st, st1, i) && Quiet(st1, st2, i)
    ensures Quiet(st, st2, i)
  {
    EvolvesTransitive(st, st1, st2, 0);
    hide Inv, Evolves, Cached;
  }

  /** The table entry stays where it is. */
  lemma QuietAt(st: State, st': State, i: nat)
    requires Quiet(st, st', i)
    ensures i in st'.slots && st'.slots[i] < |st'.itable| && st'.itable[st'.slots[i]].valid
  {
    hide Inv, Evolves;
  }

  lemma SolidIsMapped(st: State, x: nat, i: nat, off: nat)
    requires Inv(st, x) && i in st.solid && Allocated(st.live, i) && off < st.live[i].size
    ensures Ptr(st.data, st.live[i].addrs, SlotOf(off / BSIZE)) != 0
  {
    hide TreesOk, TableOk, Ptr, SlotOf, InodeOk;
    assert i in st.solid;
    assert SlotOf(off / BSIZE) == SlotOf(off / BSIZE);
  }

  /** A piece of a block is the corresponding piece of the file. */
  lemma BlockOfFile(st: State, x: nat, i: nat, off: nat, m: nat)
    requires Inv(st, x) && Allocated(st.live, i) && Settled(i, x) && st.files[i].File?
    requires off + m <= |st.files[i].bytes| && off % BSIZE + m <= BSIZE
    ensures FileBlock(st.data, st.live[i].addrs, off / BSIZE)[off % BSIZE..off % BSIZE + m] ==
      st.files[i].bytes[off..off + m]
  {
    assert InodeOk(st.data, st.inodes[i], st.live[i], st.files[i]);
    hide Inv, Shadow, ZeroTail;
    PieceOfContent(st.data, st.live[i], off, m);
  }

  /** Where byte `p` of a file is on the disk: at p % 1024 of the block whose number stands in
      the place of block p / 1024, and a file reads as 0 where there is no such block. */
  lemma PlaceOfByte(st: State, i: nat, p: nat)
    requires Inv(st, 0) && Exists(st, i) && st.files[i].File? && p < |st.files[i].bytes|
    ensures
      var (addrs, bn) := (st.live[i].addrs, p / 1024);
      var a := if bn < 11 then addrs[bn]
        else if bn < 267 then WordAt(st.data, addrs[11], bn - 11)
        else WordAt(st.data, WordAt(st.data, addrs[12], (bn - 267) / 256), (bn - 267) % 256);
      if a == 0 then st.files[i].bytes[p] == 0 else a in st.data && st.files[i].bytes[p] == st.data[a][p % 1024]
  {
    TypeOfFile(st, i);
    BlockOfFile(st, 0, i, p, 1);
    var blk := FileBlock(st.data, st.live[i].addrs, p / BSIZE);
    assert blk[p % BSIZE..p % BSIZE + 1][0] == st.files[i].bytes[p..p + 1][0];
    PlaceOfBlock(st.data, st.live[i].addrs, p / BSIZE);
    var a := Ptr(st.data, st.live[i].addrs, SlotOf(p / BSIZE));
    assert a != 0 ==> a in st.data by { PointsToData(st, i, SlotOf(p / BSIZE)); }
    assert 0 !in st.data by { NoZeroBlock(st, 0); }
    hide Inv, Ptr, SlotOf, WordAt;
  }

  lemma PointsToData(st: State, i: nat, s: Slot)
    requires Inv(st, 0) && Allocated(st.live, i)
    ensures var a := Ptr(st.data, st.live[i].addrs, s); a != 0 ==> a in st.data
  {
    hide TableOk, FilesOk, Ptr;
    assert Holds(st.owner, Ptr(st.data, st.live[i].addrs, s), i, s);
  }

  lemma PieceOfContent(data: Disk, d: Dinode, off: nat, m: nat)
    requires off + m <= d.size && off % BSIZE + m <= BSIZE
    ensures FileBlock(data, d.addrs, off / BSIZE)[off % BSIZE..off % BSIZE + m] == Content(data, d)[off..off + m]
  {
    var (blk, c) := (FileBlock(data, d.addrs, off / BSIZE), Content(data, d));
    var (piece, want) := (blk[off % BSIZE..off % BSIZE + m], c[off..off + m]);
    forall k | 0 <= k < m
      ensures piece[k] == want[k]
    {
      assert (off + k) / BSIZE == off / BSIZE && (off + k) % BSIZE == off % BSIZE + k;
      assert want[k] == FileByte(data, d.addrs, off + k);
      hide FileBlock;
    }
  }

  /** What bmap brings for one round of readi. */
  lemma OutMapped(st: State, st': State, i: nat, off: nat, addr: nat)
    requires Inv(st, 0) && Cached(st.itable, st.slots, i) && Mapped(st, st', 0, i, SlotOf(off / BSIZE), addr)
    requires i in st.solid ==> i < |st.live| && Ptr(st.data, st.live[i].addrs, SlotOf(off / BSIZE)) != 0
    ensures Quiet(st, st', i) && Hung(st, st', i, SlotOf(off / BSIZE).Path())
    ensures addr == 0 ==> i !in st.solid && FullDisk(st') && AtHole(st', i, off)
    ensures addr != 0 ==>
      && addr in st'.data && !AtHole(st', i, off) && i < |st'.live|
      && FileBlock(st'.data, st'.live[i].addrs, off / BSIZE) == st'.data[addr]
  {
    hide Inv, Quiet, Mapped, SlotOf, Ptr, Hung, FullDisk;
    var s := SlotOf(off / BSIZE);
    QuietStart(st, i);
    QuietStep(st, st, st', i, s, addr);
    MappedFacts(st, st', 0, i, s, addr);
    MappedHung(st, st', 0, i, s, addr);
    if addr == 0 { MappedZero(st, st', 0, i, s); }
  }

  /** The number of bytes readi sets out to copy, with its 32-bit wrap-around test. */
  function ReadCount(size: nat, off: Uint, n: Uint): nat
  {
    if off > size || (off + n) % 0x1_0000_0000 < off then 0 else if off + n > size then size - off else n
  }

  /** readi copied a prefix of what was asked for: all of it unless a hole could not be
      filled, and then the disk is full; on a file without holes nothing changes at all. */
  ghost predicate ReadOk(st: State, st': State, i: nat, off: Uint, n: Uint, dst: seq<Byte>)
  {
    && Quiet(st, st', i) && i < |st.files| && st.files[i].File?
    && |dst| <= ReadCount(|st.files[i].bytes|, off, n)
    && (|dst| > 0 ==> dst == st.files[i].bytes[off..off + |dst|])
    && (|dst| < ReadCount(|st.files[i].bytes|, off, n) ==>
       i !in st.solid && FullDisk(st') && AtHole(st', i, off + |dst|))
    && ReadSoFar(st, st', i, off, ReadCount(|st.files[i].bytes|, off, n), |dst|)
  }

  /** readi was asked for `want` bytes from `off` and has copied `got`: blocks have come into
      use on the way to those bytes only, and what has been copied has no holes left. */
  ghost predicate ReadSoFar(st: State, st': State, i: nat, off: nat, want: nat, got: nat)
  {
    && Quiet(st, st', i) && Hung(st, st', i, SlotsIn(off, want))
    && i < |st'.live| && RangeMapped(st'.data, st'.live[i], off, got)
  }

  lemma ReadSoFarStart(st: State, i: nat, off: nat, want: nat)
    requires Quiet(st, st, i)
    ensures ReadSoFar(st, st, i, off, want, 0)
  {
    QuietStart(st, i);
    HungItself(st, i, SlotsIn(off, want));
    hide Inv, Hung, SlotsIn;
  }

  /** One round of readi. */
  lemma ReadStep(st: State, st1: State, st2: State, i: nat, off: nat, want: nat, got: nat, m: nat)
    requires ReadSoFar(st, st1, i, off, want, got) && got < want && Quiet(st1, st2, i)
    requires Hung(st1, st2, i, SlotOf((off + got) / BSIZE).Path())
    requires m > 0 ==> (off + got) % BSIZE + m <= BSIZE && !AtHole(st2, i, off + got)
    ensures ReadSoFar(st, st2, i, off, want, got + m)
  {
    hide Inv, Hung, SlotsIn, Ptr, SlotOf, NoLeak;
    QuietFacts(st1, st2, i);
    QuietFacts(st, st1, i);
    QuietTransitive(st, st1, st2, i);
    PathInRange(off, want, off + got);
    HungTransitive(st, st1, st2, i, SlotsIn(off, want), SlotOf((off + got) / BSIZE).Path(), SlotsIn(off, want));
    assert Grown(st1.data, st1.live[i], st2.data, st2.live[i]);
    hide Quiet, RangeMapped, Grown;
    RangeMappedGrows(st1.data, st1.live[i], st2.data, st2.live[i], off, got);
    if m > 0 { RangeMappedMore(st2.data, st2.live[i], off, got, m); }
  }

  lemma RangeMappedMore(data: Disk, d: Dinode, off: nat, n: nat, m: nat)
    requires RangeMapped(data, d, off, n) && d.typ != 0 && (off + n) % BSIZE + m <= BSIZE
    requires Ptr(data, d.addrs, SlotOf((off + n) / BSIZE)) != 0
    ensures RangeMapped(data, d, off, n + m)
  {
    hide Ptr, SlotOf;
    RangeMappedCopy(data, data, d, off, n, off + n, m);
  }

  /** The way to a byte of a range is among the ways to the range. */
  lemma PathInRange(off: nat, n: nat, p: nat)
    requires off <= p < off + n
    ensures SlotOf(p / BSIZE).Path() <= SlotsIn(off, n)
  {
    hide SlotOf;
    PathInBlocks(off / BSIZE, (off + n - 1) / BSIZE + 1, p / BSIZE);
  }

  lemma {:induction false} PathInBlocks(lo: nat, hi: nat, bn: nat)
    requires lo <= bn < hi
    ensures SlotOf(bn).Path() <= BlockSlots(lo, hi)
  {
    hide SlotOf;
    if bn < hi - 1 { PathInBlocks(lo, hi - 1, bn); }
  }

  /** Byte `p` of file `i` is in a hole. */
  ghost predicate AtHole(st: State, i: nat, p: nat)
  {
    i < |st.live| && Ptr(st.data, st.live[i].addrs, SlotOf(p / BSIZE)) == 0
  }

  /** The bytes of a file after `src` is written at `off`: a gap past the old end reads as
      zeros, and the size never shrinks. */
  function Splice(c: seq<Byte>, off: nat, src: seq<Byte>): seq<Byte>
  {
    seq(if |c| > off + |src| then |c| else off + |src|,
        p requires 0 <= p => if off <= p < off + |src| then src[p - off] else if p < |c| then c[p] else 0)
  }

  /** Byte `p` of a file with bytes given by `old`, once `src` has been copied in at `off`. */
  ghost predicate ByteWritten(data: Disk, d: Dinode, data': Disk, d': Dinode, off: nat, src: seq<Byte>, p: nat)
  {
    FileByte(data', d'.addrs, p) == if off <= p < off + |src| then src[p - off] else FileByte(data, d.addrs, p)
  }

  ghost predicate BytesWritten(data: Disk, d: Dinode, data': Disk, d': Dinode, off: nat, src: seq<Byte>)
  {
    forall p: nat {:trigger FileByte(data', d'.addrs, p)} :: p < MAXBYTES ==>
      ByteWritten(data, d, data', d', off, src, p)
  }

  /** No holes in the range that has been written. */
  ghost predicate RangeMapped(data: Disk, d: Dinode, off: nat, n: nat)
  {
    n > 0 ==> forall bn: nat {:trigger SlotOf(bn)} :: off / BSIZE <= bn && bn * BSIZE < off + n ==>
      Ptr(data, d.addrs, SlotOf(bn)) != 0
  }

  /** Inode `i` is being updated, everything else is as it was. */
  ghost predicate Underway(st: State, st': State, i: nat)
  {
    && Inv(st', i) && Evolves(st, st', i)
    && st'.slots == st.slots && SameRefs(st.itable, st'.itable) && Cached(st'.itable, st'.slots, i)
    && i != 0 && Allocated(st.live, i) && Allocated(st'.live, i)
    && (NoLeak(st) ==> NoLeak(st'))
  }

  /** In the loop of writei, `src` being what has been copied so far. */
  ghost predicate Writing(st: State, st': State, i: nat, off: nat, src: seq<Byte>)
  {
    && Underway(st, st', i)
    && BytesWritten(st.data, st.live[i], st'.data, st'.live[i], off, src)
    && RangeMapped(st'.data, st'.live[i], off, |src|)
  }

  lemma WritingStart(st: State, i: nat, off: nat)
    requires Inv(st, 0) && Cached(st.itable, st.slots, i)
    ensures Writing(st, st, i, off, []) && st.itable[st.slots[i]].d == st.live[i]
  {
    StartUpdate(st, i);
    EvolvesItself(st, i);
    BytesWrittenNothing(st.data, st.live[i], off);
    hide Inv, Evolves, BytesWritten;
  }

  lemma BytesWrittenNothing(data: Disk, d: Dinode, off: nat)
    ensures BytesWritten(data, d, data, d, off, [])
  {
    forall p: nat | p < MAXBYTES
      ensures ByteWritten(data, d, data, d, off, [], p)
    {
    }
  }

  lemma EvolvesItself(st: State, x: nat)
    ensures Evolves(st, st, x)
  {
    hide Ptr, FileBlock;
  }

  lemma WritingFacts(st: State, st1: State, i: nat, off: nat, src: seq<Byte>)
    requires Writing(st, st1, i, off, src)
    ensures Inv(st1, i) && Cached(st1.itable, st1.slots, i) && Allocated(st1.live, i) && st1.slots == st.slots && i != 0
    ensures Held(st1, i) && i < |st.live| && 0 !in st1.data && st1.solid == st.solid
      && st1.live[i].size == st.live[i].size
    ensures st1.itable[st1.slots[i]].inum == i && st1.itable[st1.slots[i]].d == st1.live[i]
  {
    assert Grown(st.data, st.live[i], st1.data, st1.live[i]);
    assert SlotOk(st1.itable, st1.slots[i], st1.live, i);
    hide TableOk, Evolves, BytesWritten, RangeMapped, Grown;
  }

  /** bmap inside the loop. */
  lemma WritingMap(st: State, st1: State, st2: State, i: nat, off: nat, src: seq<Byte>, s: Slot, addr: nat)
    requires Writing(st, st1, i, off, src) && Mapped(st1, st2, i, i, s, addr)
    ensures Writing(st, st2, i, off, src)
  {
    UnderwayMap(st, st1, st2, i, s, addr);
    assert Grown(st1.data, st1.live[i], st2.data, st2.live[i]) && Evolved(st1.data, st1.live[i], st2.data, st2.live[i]);
    hide Underway, Evolves, Inv;
    BytesWrittenMap(st.data, st.live[i], st1.data, st1.live[i], st2.data, st2.live[i], off, src);
    RangeMappedGrows(st1.data, st1.live[i], st2.data, st2.live[i], off, |src|);
  }

  lemma UnderwayMap(st: State, st1: State, st2: State, i: nat, s: Slot, addr: nat)
    requires Underway(st, st1, i) && Mapped(st1, st2, i, i, s, addr)
    ensures Underway(st, st2, i)
  {
    EvolvesWeaken(st1, st2, i);
    EvolvesTransitive(st, st1, st2, i);
    hide Inv, Ptr, NoLeak;
    assert Grown(st1.data, st1.live[i], st2.data, st2.live[i]);
    hide Evolves;
  }

  lemma BytesWrittenMap(data: Disk, d: Dinode, data1: Disk, d1: Dinode, data2: Disk, d2: Dinode, off: nat,
                        src: seq<Byte>)
    requires BytesWritten(data, d, data1, d1, off, src) && d1.typ != 0 && Evolved(data1, d1, data2, d2)
    ensures BytesWritten(data, d, data2, d2, off, src)
  {
    forall p: nat | p < MAXBYTES
      ensures ByteWritten(data, d, data2, d2, off, src, p)
    {
      assert ByteWritten(data, d, data1, d1, off, src, p);
      assert p / BSIZE < MAXFILE;
      hide FileBlock;
    }
  }

  lemma RangeMappedGrows(data: Disk, d: Dinode, data': Disk, d': Dinode, off: nat, n: nat)
    requires RangeMapped(data, d, off, n) && d.typ != 0 && Grown(data, d, data', d')
    ensures RangeMapped(data', d', off, n)
  {
    hide Ptr, SlotOf;
    forall bn: nat | n > 0 && off / BSIZE <= bn && bn * BSIZE < off + n
      ensures Ptr(data', d'.addrs, SlotOf(bn)) != 0
    {
      assert Ptr(data, d.addrs, SlotOf(bn)) != 0;
    }
  }

  lemma EvolvesWeaken(st: State, st': State, x: nat)
    requires Evolves(st, st', 0)
    ensures Evolves(st, st', x)
  {
    hide Grown, Evolved;
  }

  /** memmove into the block at the current offset. */
  lemma WritingData(st: State, st1: State, i: nat, off: nat, src: seq<Byte>, o: nat, piece: seq<Byte>)
    requires Writing(st, st1, i, off, src) && o == off + |src| && o < MAXBYTES && o % BSIZE + |piece| <= BSIZE
    requires i < |st1.live| && Ptr(st1.data, st1.live[i].addrs, SlotOf(o / BSIZE)) in st1.data
    ensures Writing(st, AfterCopy(st1, i, o, piece), i, off, src + piece)
  {
    var st2 := AfterCopy(st1, i, o, piece);
    hide Inv, Ptr, SlotOf, Overlay, Evolves, AfterCopy, BytesWritten, RangeMapped, Underway;
    WritingFacts(st, st1, i, off, src);
    CopyFacts(st1, i, o, piece);
    UnderwayCopy(st, st1, i, o, piece);
    BytesWrittenCopy(st.data, st.live[i], st1.data, st2.data, st1.live[i], off, src, o, piece);
    RangeMappedCopy(st1.data, st2.data, st1.live[i], off, |src|, o, |piece|);
  }

  lemma CopyFacts(st: State, i: nat, o: nat, piece: seq<Byte>)
    requires Inv(st, i) && i != 0 && Held(st, i) && Allocated(st.live, i) && o % BSIZE + |piece| <= BSIZE
      && o < MAXBYTES
    requires Ptr(st.data, st.live[i].addrs, SlotOf(o / BSIZE)) in st.data
    ensures var st' := AfterCopy(st, i, o, piece);
      && Inv(st', i) && Evolves(st, st', i) && st'.live == st.live
      && Grown(st.data, st.live[i], st'.data, st.live[i])
      && (forall bm: nat :: bm < MAXFILE ==>
            FileBlock(st'.data, st.live[i].addrs, bm) ==
              if bm == o / BSIZE then Overlay(FileBlock(st.data, st.live[i].addrs, bm), o % BSIZE, piece)
                else FileBlock(st.data, st.live[i].addrs, bm))
  {
    var b := Ptr(st.data, st.live[i].addrs, SlotOf(o / BSIZE));
    hide Inv, Ptr, SlotOf, Overlay;
    DataWriteKeepsInv(st, i, o / BSIZE, Overlay(BlockAt(st.data, b), o % BSIZE, piece));
    hide Grown, Evolved;
  }

  lemma RangeMappedCopy(data: Disk, data': Disk, d: Dinode, off: nat, n: nat, o: nat, m: nat)
    requires RangeMapped(data, d, off, n) && d.typ != 0 && Grown(data, d, data', d)
    requires o == off + n && o % BSIZE + m <= BSIZE && Ptr(data, d.addrs, SlotOf(o / BSIZE)) != 0
    ensures RangeMapped(data', d, off, n + m)
  {
    hide Ptr, SlotOf;
    forall bn: nat | n + m > 0 && off / BSIZE <= bn && bn * BSIZE < off + n + m
      ensures Ptr(data', d.addrs, SlotOf(bn)) != 0
    {
      if bn * BSIZE >= o || n == 0 { assert bn == o / BSIZE; }
      assert Ptr(data, d.addrs, SlotOf(bn)) != 0;
    }
  }

  lemma UnderwayCopy(st: State, st1: State, i: nat, o: nat, piece: seq<Byte>)
    requires Underway(st, st1, i) && Inv(AfterCopy(st1, i, o, piece), i) && Evolves(st1, AfterCopy(st1, i, o, piece), i)
    ensures Underway(st, AfterCopy(st1, i, o, piece), i)
  {
    EvolvesTransitive(st, st1, AfterCopy(st1, i, o, piece), i);
    hide Inv, Evolves, Ptr, SlotOf, Overlay, BlockAt;
  }

  lemma BytesWrittenCopy(data: Disk, d: Dinode, data1: Disk, data2: Disk, d1: Dinode, off: nat, src: seq<Byte>, o: nat,
                         piece: seq<Byte>)
    requires BytesWritten(data, d, data1, d1, off, src)
    requires o == off + |src| && o % BSIZE + |piece| <= BSIZE
    requires forall bm: nat :: bm < MAXFILE ==>
      FileBlock(data2, d1.addrs, bm) ==
        if bm == o / BSIZE then Overlay(FileBlock(data1, d1.addrs, bm), o % BSIZE, piece)
          else FileBlock(data1, d1.addrs, bm)
    ensures BytesWritten(data, d, data2, d1, off, src + piece)
  {
    hide FileBlock;
    forall p: nat | p < MAXBYTES
      ensures ByteWritten(data, d, data2, d1, off, src + piece, p)
    {
      assert ByteWritten(data, d, data1, d1, off, src, p);
      assert p / BSIZE < MAXFILE;
      if p / BSIZE == o / BSIZE { assert p - o == p % BSIZE - o % BSIZE; }
    }
  }

  /** The state after copying `piece` into file `i` at `o`, within one block. */
  ghost function AfterCopy(st: State, i: nat, o: nat, piece: seq<Byte>): State
  {
    if !Exists(st, i) || o % BSIZE + |piece| > BSIZE then st else
      var b := Ptr(st.data, st.live[i].addrs, SlotOf(o / BSIZE));
      WithData(st, b, Overlay(BlockAt(st.data, b), o % BSIZE, piece))
  }

  function Overlay(blk: Block, at: nat, piece: seq<Byte>): Block
    requires at + |piece| <= BSIZE
  {
    blk[..at] + piece + blk[at + |piece|..]
  }

  /** A file written past its end is no longer known to have no holes. */
  function SolidAfter(solid: set<nat>, i: nat, size: nat, off: nat): set<nat>
  {
    if off <= size then solid else solid - {i}
  }

  /** The tail of writei: grow the size to `end`, and iupdate. */
  ghost function Finish(st: State, i: nat, off: nat, end: nat): State
  {
    if !Exists(st, i) || end > MAXBYTES then st else
      var d := st.live[i];
      WithSync(WithFields(st.(solid := SolidAfter(st.solid, i, d.size, off)), i,
        if end > d.size then d.(size := end) else d), i)
  }

  lemma LessSolid(st: State, x: nat, solid: set<nat>)
    requires Inv(st, x) && solid <= st.solid
    ensures Inv(st.(solid := solid), x)
  {
    hide Owned, TableOk, InodeOk, Dense;
  }

  lemma DenseAfter(data: Disk, d: Dinode, off: nat, n: nat, end: nat)
    requires Dense(data, d) && off <= d.size && RangeMapped(data, d, off, n) && end == off + n
      && d.size < end < 0x1_0000_0000
    ensures Dense(data, d.(size := end))
  {
    hide Ptr, SlotOf;
    forall bn: nat | bn * BSIZE < end
      ensures Ptr(data, d.addrs, SlotOf(bn)) != 0
    {
      assert SlotOf(bn) == SlotOf(bn);
    }
  }

  lemma TailAfter(data: Disk, d: Dinode, data': Disk, d1: Dinode, off: nat, src: seq<Byte>, d': Dinode)
    requires BytesWritten(data, d, data', d1, off, src) && ZeroTail(data, d)
    requires d' == d1.(size := d'.size) && d.size <= d'.size && off + |src| <= d'.size
    ensures ZeroTail(data', d')
  {
    hide FileByte;
    forall p: nat | d'.size <= p < MAXBYTES
      ensures FileByte(data', d'.addrs, p) == 0
    {
      assert ByteWritten(data, d, data', d1, off, src, p);
    }
  }

  lemma ContentAfter(data: Disk, d: Dinode, data': Disk, d1: Dinode, off: nat, src: seq<Byte>, d': Dinode)
    requires BytesWritten(data, d, data', d1, off, src) && ZeroTail(data, d) && off + |src| <= MAXBYTES
      && d.size <= MAXBYTES
    requires d' == d1.(size := d'.size) && d'.size == if d.size > off + |src| then d.size else off + |src|
    ensures Content(data', d') == Splice(Content(data, d), off, src)
  {
    hide FileByte;
    var (c', w) := (Content(data', d'), Splice(Content(data, d), off, src));
    forall p: nat | p < d'.size
      ensures c'[p] == w[p]
    {
      assert ByteWritten(data, d, data', d1, off, src, p);
    }
  }

  /** The file after writei is the splice of what was copied into the file before. */
  lemma FinishFile(st: State, st1: State, i: nat, off: nat, src: seq<Byte>, end: nat)
    requires Inv(st, 0) && Writing(st, st1, i, off, src) && end == off + |src| <= MAXBYTES
    ensures Exists(st, i) && st.files[i].File? && |st.files[i].bytes| == st.live[i].size == st1.live[i].size
    ensures var d := st1.live[i]; var d' := if end > d.size then d.(size := end) else d;
      ZeroTail(st1.data, d') && d'.size <= MAXBYTES
      && FileOf(st1.data, d') == st.files[i].(bytes := Splice(st.files[i].bytes, off, src))
  {
    var d := st.live[i];
    assert InodeOk(st.data, st.inodes[i], d, st.files[i]);
    assert Grown(st.data, d, st1.data, st1.live[i]);
    var d' := if end > d.size then st1.live[i].(size := end) else st1.live[i];
    hide Inv, Grown, Evolves, FileByte, BytesWritten, Shadow, ZeroTail, Splice, RangeMapped;
    TailAfter(st.data, d, st1.data, st1.live[i], off, src, d');
    ContentAfter(st.data, d, st1.data, st1.live[i], off, src, d');
  }

  lemma FinishKeepsInv(st: State, st1: State, i: nat, off: nat, src: seq<Byte>, end: nat)
    requires Inv(st, 0) && Writing(st, st1, i, off, src) && end == off + |src| <= MAXBYTES
    ensures Inv(Finish(st1, i, off, end), 0)
  {
    hide Inv, Writing, ZeroTail, FileOf, Dense;
    FinishFile(st, st1, i, off, src, end);
    WritingFacts(st, st1, i, off, src);
    var (d, solid') := (st1.live[i], SolidAfter(st1.solid, i, st1.live[i].size, off));
    var d' := if end > d.size then d.(size := end) else d;
    if i in solid' {
      SolidIsDense(st1, i, i);
      if end > d.size { DenseAfterWrite(st, st1, i, off, src, end); }
    }
    var st2 := st1.(solid := solid');
    LessSolid(st1, i, solid');
    FieldsKeepInv(st2, i, d');
    SyncKeepsInv(WithFields(st2, i, d'), i);
  }

  lemma DenseAfterWrite(st: State, st1: State, i: nat, off: nat, src: seq<Byte>, end: nat)
    requires Writing(st, st1, i, off, src) && i < |st1.live| && Dense(st1.data, st1.live[i]) && off <= st1.live[i].size
    requires end == off + |src| && st1.live[i].size < end < 0x1_0000_0000
    ensures Dense(st1.data, st1.live[i].(size := end))
  {
    hide Underway, BytesWritten, Dense;
    DenseAfter(st1.data, st1.live[i], off, |src|, end);
  }

  lemma SolidIsDense(st: State, x: nat, i: nat)
    requires Inv(st, x) && i in st.solid
    ensures Allocated(st.live, i) && Dense(st.data, st.live[i])
  {
    hide TreesOk, TableOk, InodeOk;
  }

  /** writei's two tests on the requested range: 32-bit wrap-around, and MAXFILE. */
  predicate Refused(off: Uint, n: nat)
  {
    (off + n) % 0x1_0000_0000 < off || off + n > MAXBYTES
  }

  /** writei spliced the first r bytes of src into file `i` at off and changed no other
      file; it falls short only on a full disk, at a block boundary, and never inside a
      file without holes; a refused write changes nothing. */
  ghost predicate WriteOk(st: State, st': State, i: nat, off: Uint, src: seq<Byte>, r: int)
  {
    if Refused(off, |src|) then r == -1 && st' == st else
      && 0 <= r <= |src| && Inv(st', 0) && Exists(st, i) && st.files[i].File?
      && st'.files == st.files[i := st.files[i].(bytes := Splice(st.files[i].bytes, off, src[..r]))]
      && st'.slots == st.slots && SameRefs(st.itable, st'.itable) && Cached(st'.itable, st'.slots, i)
      && st'.solid == SolidAfter(st.solid, i, |st.files[i].bytes|, off)
      && Hung(st, st', i, SlotsIn(off, |src|))
      && (r < |src| ==> FullDisk(st') && AtHole(st', i, off + r) && (r == 0 || (off + r) % BSIZE == 0))
      && (i in st.solid && off + |src| <= |st.files[i].bytes| ==> r == |src|)
      && Exists(st', i) && st'.inodes[i] == st'.live[i] && st'.inodes == st.inodes[i := st'.inodes[i]]
      && RangeMapped(st'.data, st'.live[i], off, r)
      && (NoLeak(st) ==> NoLeak(st'))
  }

  lemma WriteKeepsTidy(st: State, st': State, i: nat, off: Uint, src: seq<Byte>, r: int)
    requires WriteOk(st, st', i, off, src, r) && Tidy(st)
    ensures Tidy(st')
  {
    hide Inv, Splice, SlotsIn, RangeMapped, FullDisk, AtHole;
    if !Refused(off, |src|) {
      hide NoLeak;
      assert forall j :: 0 <= j < |st'.live| ==> st'.inodes[j] == st'.live[j];
    }
  }

  /** A write that was complete is read back as it was, and the reading changes no file. */
  lemma WriteThenRead(st: State, st1: State, st2: State, i: nat, off: Uint, src: seq<Byte>, dst: seq<Byte>)
    requires src != [] && |src| < 0x1_0000_0000 && !Refused(off, |src|) && WriteOk(st, st1, i, off, src, |src|)
    requires ReadOk(st1, st2, i, off, |src|, dst)
    ensures dst == src && st2.files == st1.files
  {
    hide Inv, Ptr, SlotOf, NoLeak, FullDisk;
    var (n, p) := (|src|, off + |dst|);
    assert src[..n] == src && off + n <= |st1.files[i].bytes|;
    if |dst| < n {
      assert Grown(st1.data, st1.live[i], st2.data, st2.live[i]);
      var bn := p / BSIZE;
      assert off / BSIZE <= bn && bn * BSIZE < off + n;
      assert Ptr(st1.data, st1.live[i].addrs, SlotOf(bn)) != 0;
      LiveFile(st1, i);
    }
    assert dst == st1.files[i].bytes[off..off + n];
    assert st1.files[i].bytes == Splice(st.files[i].bytes, off, src);
  }

  /** What a read is to give, in numbers: nothing past the end of the file or when the end of
      the range does not fit 32 bits, and else the bytes from `off` up to `n` of them or the end
      of the file, whichever comes first.  On a file without holes it gives them all. */
  lemma ReadGives(st: State, st': State, i: nat, off: Uint, n: Uint, dst: seq<Byte>)
    requires ReadOk(st, st', i, off, n, dst)
    ensures i < |st.files| && i < |st.live| && st.files[i].File?
    ensures
      var bytes := st.files[i].bytes;
      if off > |bytes| || off + n >= 4294967296 then dst == []
      else
        var all := if n < |bytes| - off then bytes[off..off + n] else bytes[off..];
        dst <= all && (i in st.solid || RangeMapped(st.data, st.live[i], off, |all|) ==> dst == all)
  {
    hide Inv, Evolves, Ptr, SlotOf, Hung, SlotsIn, FullDisk, NoLeak, RangeMapped;
    QuietLengths(st, st', i);
    var want := ReadCount(|st.files[i].bytes|, off, n);
    if |dst| < want && RangeMapped(st.data, st.live[i], off, want) {
      NoHoleInRange(st, st', i, off, want, off + |dst|);
    }
  }

  lemma QuietLengths(st: State, st': State, i: nat)
    requires Quiet(st, st', i)
    ensures |st'.live| == |st.live| && st'.files == st.files
  {
    hide Inv;
  }

  /** A block that was there before a read is there afterwards. */
  lemma NoHoleInRange(st: State, st': State, i: nat, off: nat, n: nat, p: nat)
    requires Quiet(st, st', i) && i < |st.live| && i < |st.files| && st.files[i].File?
    requires RangeMapped(st.data, st.live[i], off, n) && off <= p < off + n
    ensures !AtHole(st', i, p)
  {
    LiveFile(st', i);
    var bn := p / BSIZE;
    assert off / BSIZE <= bn && bn * BSIZE < off + n && Ptr(st.data, st.live[i].addrs, SlotOf(bn)) != 0;
    hide Inv, Ptr, SlotOf, RangeMapped;
    assert Grown(st.data, st.live[i], st'.data, st'.live[i]);
  }

  /** After a complete write that ends the file, a read from the same offset that asks for as
      much or more gives precisely what was written, and the next read gives nothing. */
  lemma WriteThenReadToEnd(st: State, st1: State, st2: State, st3: State, i: nat, off: Uint, src: seq<Byte>,
                           n: Uint, dst: seq<Byte>, m: Uint, rest: seq<Byte>)
    requires src != [] && WriteOk(st, st1, i, off, src, |src|)
    requires i < |st.files| && st.files[i].File? && |st.files[i].bytes| <= off + |src|
    requires |src| <= n && off + n < 4294967296 && ReadOk(st1, st2, i, off, n, dst)
    requires ReadOk(st2, st3, i, off + |src|, m, rest)
    ensures dst == src && rest == []
  {
    hide ReadOk, Inv, Ptr, SlotOf, Hung, SlotsIn, FullDisk, NoLeak, AtHole, RangeMapped;
    assert src[..|src|] == src && st1.files[i].bytes[off..] == src && |st1.files[i].bytes| == off + |src|;
    assert RangeMapped(st1.data, st1.live[i], off, |src|);
    hide WriteOk, Splice;
    ReadGives(st1, st2, i, off, n, dst);
    ReadGives(st2, st3, i, off + |src|, m, rest);
    ReadKeepsFiles(st1, st2, i, off, n, dst);
  }

  lemma ReadKeepsFiles(st: State, st': State, i: nat, off: Uint, n: Uint, dst: seq<Byte>)
    requires ReadOk(st, st', i, off, n, dst)
    ensures st'.files == st.files
  {
    hide Inv, ReadSoFar, AtHole, FullDisk;
    QuietLengths(st, st', i);
  }

  /** What a file holds after a write, byte by byte: what was written where it was written,
      what was there everywhere else, and zeros in a gap behind the old end; and a write is
      refused just when it would go beyond the greatest size of a file. */
  lemma WriteGives(st: State, st': State, i: nat, off: Uint, src: seq<Byte>, r: int)
    requires WriteOk(st, st', i, off, src, r) && |src| < 4294967296
    ensures r == -1 <==> off + |src| > 67382272
    ensures r == -1 ==> st' == st
    ensures r != -1 ==>
      && 0 <= r <= |src| && |st'.files| == |st.files| && i < |st.files|
      && st.files[i].File? && st'.files[i].File?
    ensures r != -1 ==> forall j :: 0 <= j < |st.files| && j != i ==> st'.files[j] == st.files[j]
    ensures r != -1 ==>
      var (before, after) := (st.files[i].bytes, st'.files[i].bytes);
      && st'.files[i] == st.files[i].(bytes := after)
      && |after| == (if |before| < off + r then off + r else |before|)
      && forall p :: 0 <= p < |after| ==>
           after[p] == if off <= p < off + r then src[p - off] else if p < |before| then before[p] else 0
  {
    hide Inv, Hung, SlotsIn, FullDisk, NoLeak, AtHole, RangeMapped;
  }

  lemma LiveFile(st: State, i: nat)
    requires Inv(st, 0) && i < |st.live| && i < |st.files| && st.files[i].File?
    ensures st.live[i].typ != 0
  {
    TypeOfFile(st, i);
  }

  /** What the tail of writei leaves alone. */
  lemma FinishFrame(st: State, st1: State, i: nat, off: nat, src: seq<Byte>, end: nat)
    requires Writing(st, st1, i, off, src) && end <= MAXBYTES
    ensures i < |st1.live|
    ensures var (st', d) := (Finish(st1, i, off, end), st1.live[i]);
      && i < |st'.files| && st'.files[i] == FileOf(st1.data, if end > d.size then d.(size := end) else d)
      && st'.slots == st.slots && SameRefs(st.itable, st'.itable) && Cached(st'.itable, st'.slots, i)
      && Exists(st', i) && st'.inodes[i] == st'.live[i] && st'.solid == SolidAfter(st.solid, i, st.live[i].size, off)
      && st'.files == st.files[i := st'.files[i]] && st'.data == st1.data && st'.marked == st1.marked
      && (NoLeak(st) ==> NoLeak(st')) && (FullDisk(st1) ==> FullDisk(st'))
      && RangeMapped(st'.data, st'.live[i], off, |src|)
      && Exists(st1, i) && st'.inodes == st1.inodes[i := st'.inodes[i]] && st1.inodes == st.inodes
  {
    WritingFacts(st, st1, i, off, src);
    assert Grown(st.data, st.live[i], st1.data, st1.live[i]);
    hide Inv, Grown, Evolved, BytesWritten, FileOf, Ptr, SlotOf;
  }

  lemma HungFinish(st: State, st1: State, i: nat, off: nat, end: nat, slots: set<Slot>)
    requires Hung(st, st1, i, slots)
    ensures Hung(st, Finish(st1, i, off, end), i, slots)
  {
    hide FileOf, NewIn;
    forall b | b in st1.owner && b !in st.owner ensures NewIn(st, Finish(st1, i, off, end), b, i, slots) {
      assert NewIn(st, st1, b, i, slots);
      NewInAlike(st, st1, Finish(st1, i, off, end), b, i, slots);
    }
  }

  lemma NewInAlike(st: State, st1: State, st2: State, b: nat, i: nat, slots: set<Slot>)
    requires st2.marked == st1.marked && st2.owner == st1.owner
    ensures NewIn(st, st1, b, i, slots) == NewIn(st, st2, b, i, slots)
  {
  }

  lemma FinishKeepsHoles(st: State, i: nat, off: nat, end: nat, p: nat)
    ensures AtHole(st, i, p) ==> AtHole(Finish(st, i, off, end), i, p)
  {
    hide Ptr, SlotOf, FileOf;
  }

  lemma FinishIsWriteOk(st: State, st1: State, i: nat, off: Uint, src: seq<Byte>, r: nat)
    requires r <= |src| && !Refused(off, |src|) && Inv(st, 0) && Writing(st, st1, i, off, src[..r])
    requires r < |src| ==> FullDisk(st1) && AtHole(st1, i, off + r) && (r == 0 || (off + r) % BSIZE == 0)
    requires Hung(st, st1, i, SlotsIn(off, |src|))
    requires i in st.solid && i < |st.live| && off + |src| <= st.live[i].size ==> r == |src|
    ensures WriteOk(st, Finish(st1, i, off, off + r), i, off, src, r)
  {
    hide Inv, FileOf, ZeroTail, Splice, NoLeak, Writing, Finish, Cached, SameRefs, FullDisk, Hung, SlotsIn, AtHole;
    var written := src[..r];
    HungFinish(st, st1, i, off, off + r, SlotsIn(off, |src|));
    FinishKeepsHoles(st1, i, off, off + r, off + r);
    FinishFile(st, st1, i, off, written, off + r);
    FinishKeepsInv(st, st1, i, off, written, off + r);
    FinishFrame(st, st1, i, off, written, off + r);
  }

  lemma CopyIsAfterCopy(st: State, i: nat, o: nat, piece: seq<Byte>, b: nat)
    requires Exists(st, i) && o % BSIZE + |piece| <= BSIZE && b in st.data
    requires b == Ptr(st.data, st.live[i].addrs, SlotOf(o / BSIZE))
    ensures AfterCopy(st, i, o, piece) == WithData(st, b, Overlay(st.data[b], o % BSIZE, piece))
  {
    hide Ptr, SlotOf;
  }

  lemma LiveLength(st: State, st1: State, i: nat, off: nat, src: seq<Byte>)
    requires Writing(st, st1, i, off, src)
    ensures |st1.live| == |st1.inodes|
  {
    hide TreesOk, TableOk, Evolves, BytesWritten, RangeMapped;
  }

  // ---------- references ----------

  /** How often inode `i` is referenced, 0 when it has no table entry. */
  function RefOf(itable: seq<MemInode>, slots: Slots, i: nat): nat
  {
    if i in slots && slots[i] < |itable| then itable[slots[i]].ref else 0
  }

  /** A step that only moves references: `delta` more to inode `i`, none to others; entries in use
      stay where they are and as loaded as they are. */
  ghost predicate RefsMoved(st: State, st': State, i: nat, delta: int)
  {
    && (forall j: nat {:trigger RefOf(st'.itable, st'.slots, j)} ::
       RefOf(st'.itable, st'.slots, j) == RefOf(st.itable, st.slots, j) + (if j == i then delta else 0))
    && (forall j: nat {:trigger st'.slots[j]} :: j in st.slots && j in st'.slots ==> st'.slots[j] == st.slots[j])
    && (forall j: nat {:trigger Cached(st'.itable, st'.slots, j)} :: j in st.slots && j in st'.slots ==>
          Cached(st'.itable, st'.slots, j) == Cached(st.itable, st.slots, j))
  }

  /** iget: one more reference to inode `i`, whose entry is `ip`. */
  ghost predicate GetOk(st: State, st': State, i: nat, ip: nat)
  {
    && Inv(st', 0) && st' == st.(itable := st'.itable, slots := st.slots[i := ip])
    && RefsMoved(st, st', i, 1) && (i !in st.slots ==> !Cached(st'.itable, st'.slots, i))
  }

  lemma EntryMovesRefs(st: State, s: nat, i: nat)
    requires Inv(st, 0) && s < NINODE && s < |st.itable| && st.itable[s].ref == 0 && i !in st.slots
    ensures RefsMoved(st, WithEntry(st, s, i), i, 1)
      && !Cached(WithEntry(st, s, i).itable, WithEntry(st, s, i).slots, i)
  {
    hide Inv;
    SlotsOfReferenced(st);
    var st' := WithEntry(st, s, i);
    forall j: nat
      ensures RefOf(st'.itable, st'.slots, j) == RefOf(st.itable, st.slots, j) + (if j == i then 1 else 0)
      ensures j in st.slots && j in st'.slots ==> st'.slots[j] == st.slots[j]
      ensures j in st.slots ==> Cached(st'.itable, st'.slots, j) == Cached(st.itable, st.slots, j)
    {
      if j in st.slots { assert st.slots[j] != s; }
    }
  }

  lemma GetNew(st: State, s: nat, i: nat)
    requires Inv(st, 0) && s < NINODE && st.itable[s].ref == 0
    requires 0 < i && Allocated(st.live, i) && i !in st.slots
    ensures GetOk(st, WithEntry(st, s, i), i, s)
  {
    hide Inv, RefsMoved, Cached;
    InvParts(st, 0);
    EntryKeepsInv(st, s, i);
    EntryMovesRefs(st, s, i);
  }

  lemma SlotsOfReferenced(st: State)
    requires Inv(st, 0)
    ensures |st.itable| == NINODE
    ensures forall i {:trigger st.slots[i]} :: i in st.slots ==>
      st.slots[i] < NINODE && st.itable[st.slots[i]].ref > 0 && st.itable[st.slots[i]].inum == i
    ensures forall s: nat {:trigger st.itable[s]} :: s < NINODE && st.itable[s].ref > 0 ==>
      st.itable[s].inum in st.slots && st.slots[st.itable[s].inum] == s
  {
    hide TreesOk, FilesOk;
    forall i | i in st.slots
      ensures st.slots[i] < NINODE && st.itable[st.slots[i]].ref > 0 && st.itable[st.slots[i]].inum == i
    {
      assert SlotOk(st.itable, st.slots[i], st.live, i);
    }
  }

  lemma RefMovesRefs(st: State, s: nat, r: nat)
    requires Inv(st, 0) && s < NINODE && s < |st.itable| && st.itable[s].ref > 0
    ensures RefsMoved(st, WithRef(st, s, r), st.itable[s].inum, r - st.itable[s].ref)
  {
    hide Inv;
    SlotsOfReferenced(st);
    var (st', i) := (WithRef(st, s, r), st.itable[s].inum);
    forall j: nat
      ensures RefOf(st'.itable, st'.slots, j) ==
        RefOf(st.itable, st.slots, j) + (if j == i then r - st.itable[s].ref else 0)
      ensures Cached(st'.itable, st'.slots, j) == Cached(st.itable, st.slots, j)
    {
      if j in st.slots && j != i { assert st.itable[st.slots[j]].inum == j; }
    }
  }

  lemma GetAgain(st: State, s: nat, i: nat)
    requires Inv(st, 0) && s < NINODE && st.itable[s].ref > 0 && st.itable[s].inum == i
    ensures GetOk(st, WithRef(st, s, st.itable[s].ref + 1), i, s)
  {
    hide Inv, RefsMoved;
    InvParts(st, 0);
    RefKeepsInv(st, s, st.itable[s].ref + 1);
    RefMovesRefs(st, s, st.itable[s].ref + 1);
    SlotsOfReferenced(st);
  }

  /** A table without a free entry holds NINODE different inodes. */
  lemma FullTable(itable: seq<MemInode>, slots: Slots, n: nat) returns (held: set<nat>)
    requires n <= |itable|
    requires forall s {:trigger itable[s]} :: 0 <= s < n ==> itable[s].inum in slots && slots[itable[s].inum] == s
    ensures |held| == n && forall i :: i in held ==> i in slots && slots[i] < n
  {
    if n == 0 { return {}; }
    held := FullTable(itable, slots, n - 1);
    assert itable[n - 1].inum !in held;
    held := held + {itable[n - 1].inum};
  }

  lemma SubsetCard(a: set<nat>, b: set<nat>)
    requires a <= b
    ensures |a| <= |b|
  {
    if a != {} {
      var x :| x in a;
      SubsetCard(a - {x}, b - {x});
    }
  }

  /** An entry for each referenced inode, and no two inodes share one. */
  lemma {:induction false} OneEntryEach(itable: seq<MemInode>, slots: Slots, keys: set<nat>, used: set<nat>)
    requires keys <= slots.Keys
    requires forall i {:trigger slots[i]} :: i in keys ==>
      slots[i] in used && slots[i] < |itable| && itable[slots[i]].inum == i
    ensures |keys| <= |used|
  {
    if keys != {} {
      var i :| i in keys;
      OneEntryEach(itable, slots, keys - {i}, used - {slots[i]});
    }
  }

  function Below(n: nat): set<nat> { if n == 0 then {} else Below(n - 1) + {n - 1} }

  lemma {:induction false} BelowFacts(n: nat)
    ensures |Below(n)| == n && forall x: nat :: x in Below(n) <==> x < n
  {
    if n > 0 { BelowFacts(n - 1); }
  }

  /** Inodes with entries other than `s` are no more than there are such entries. */
  lemma EntriesBut(itable: seq<MemInode>, slots: Slots, gone: set<nat>)
    requires |itable| == NINODE && gone <= Below(NINODE)
    requires forall i {:trigger slots[i]} :: i in slots ==>
      slots[i] < NINODE && slots[i] !in gone && itable[slots[i]].inum == i
    ensures |slots| <= NINODE - |gone|
  {
    BelowFacts(NINODE);
    hide Below;
    var used := Below(NINODE) - gone;
    assert Below(NINODE) == used + gone;
    OneEntryEach(itable, slots, slots.Keys, used);
  }

  /** The table has an empty entry just when fewer than NINODE inodes are referenced. */
  lemma RoomForOne(st: State)
    requires Inv(st, 0)
    ensures (exists s: nat :: s < NINODE && s < |st.itable| && st.itable[s].ref == 0) <==> |st.slots| < NINODE
    ensures |st.slots| <= NINODE
  {
    hide Inv, Below;
    SlotsOfReferenced(st);
    EntriesBut(st.itable, st.slots, {});
    if s: nat :| s < NINODE && st.itable[s].ref == 0 {
      BelowFacts(NINODE);
      EntriesBut(st.itable, st.slots, {s});
    } else {
      var held := FullTable(st.itable, st.slots, NINODE);
      SubsetCard(held, st.slots.Keys);
    }
  }

  /** There is a table entry for inode `i` when those of `keys` have one each. */
  predicate RoomFor(keys: set<nat>, i: nat) { i in keys || |keys| < NINODE }

  /** iget finds neither the entry of inode `i` nor an empty one: "iget: no inodes". */
  ghost predicate GetPanics(itable: seq<MemInode>, i: nat)
  {
    forall s {:trigger itable[s]} :: 0 <= s < |itable| ==> itable[s].ref > 0 && itable[s].inum != i
  }

  lemma GetPanicsIff(st: State, i: nat)
    requires Inv(st, 0)
    ensures GetPanics(st.itable, i) <==> !RoomFor(st.slots.Keys, i)
    ensures !RoomFor(st.slots.Keys, i) <==> i !in st.slots && |st.slots| == NINODE
  {
    SlotsOfReferenced(st);
    RoomForOne(st);
    hide Inv;
    assert i in st.slots ==> st.slots[i] < |st.itable| && st.itable[st.slots[i]].inum == i;
  }

  /** ilock: inode `i` is loaded afterwards, nothing else changes. */
  ghost predicate LockOk(st: State, st': State, i: nat)
  {
    && Inv(st', 0) && st' == st.(itable := st'.itable) && Cached(st'.itable, st'.slots, i)
    && |st'.itable| == |st.itable|
    && (forall s {:trigger st'.itable[s]} :: 0 <= s < |st.itable| ==>
          st'.itable[s].ref == st.itable[s].ref && st'.itable[s].inum == st.itable[s].inum)
    && (forall j: nat {:trigger Cached(st'.itable, st'.slots, j)} :: Cached(st.itable, st.slots, j) ==>
       Cached(st'.itable, st'.slots, j))
  }

  lemma LoadIsLockOk(st: State, s: nat)
    requires Inv(st, 0) && s < NINODE && st.itable[s].ref > 0 && !st.itable[s].valid
    ensures LockOk(st, WithLoad(st, s), st.itable[s].inum) && st.itable[s].inum < |st.inodes|
    ensures st.inodes[st.itable[s].inum].typ != 0
  {
    LoadKeepsInv(st, s);
    hide Inv;
  }

  lemma LockedAlready(st: State, s: nat)
    requires Inv(st, 0) && s < NINODE && st.itable[s].ref > 0 && st.itable[s].valid
    ensures LockOk(st, st, st.itable[s].inum)
  {
    SlotsOfReferenced(st);
    hide Inv;
  }

  /** The state after iput of inode `i`. */
  ghost function AfterPut(st: State, i: nat): State
  {
    if !Held(st, i) then st else
      var e := st.itable[st.slots[i]];
      if e.ref > 1 then WithRef(st, st.slots[i], e.ref - 1)
      else if e.valid && e.d.nlink == 0 then WithFree(st, i)
      else WithDrop(st, i)
  }

  /** Will iput of inode `i` free it? */
  ghost predicate LastPut(st: State, i: nat)
  {
    Held(st, i) && st.itable[st.slots[i]].ref == 1 && st.itable[st.slots[i]].valid
      && st.itable[st.slots[i]].d.nlink == 0
  }

  /** iput: one reference less; the file goes away just when it was the last and the
      inode is loaded and unlinked, and then exactly its blocks become free.  Otherwise
      nothing but the table changes, unless the last reference goes and the disk has not got
      the inode as it is. */
  ghost predicate PutOk(st: State, st': State, i: nat)
  {
    && Inv(st', 0) && RefsMoved(st, st', i, -1) && Exists(st, i) && st'.data == st.data
    && st'.slots == (if RefOf(st.itable, st.slots, i) == 1 then st.slots - {i} else st.slots)
    && st'.files == (if LastPut(st, i) then st.files[i := Free] else st.files)
    && st'.solid == (if LastPut(st, i) then st.solid - {i} else st.solid)
    && st'.marked == (if LastPut(st, i) then st.marked - BlocksOf(st.owner, i) else st.marked)
    && (forall b {:trigger b in st'.owner} :: b in st.owner && st.owner[b].inum != i ==>
       b in st'.owner && st'.owner[b] == st.owner[b])
    && (!LastPut(st, i) && (st.inodes[i] == st.live[i] || RefOf(st.itable, st.slots, i) > 1) ==> SameDisk(st, st'))
    && (Tidy(st) ==> Tidy(st'))
  }

  /** A file without holes is on the disk as it is in memory. */
  lemma SolidSynced(st: State, i: nat)
    requires Inv(st, 0) && i in st.solid
    ensures Exists(st, i) && st.inodes[i] == st.live[i]
  {
    hide TreesOk, TableOk, InodeOk, Dense;
  }

  lemma PutIsOk(st: State, i: nat)
    requires Inv(st, 0) && i in st.slots
    ensures PutOk(st, AfterPut(st, i), i)
  {
    hide Inv, BlocksOf, Truncated, OwnerWithout, Remaining, FileOf, RefsMoved;
    SlotsOfReferenced(st);
    HeldIfReferenced(st, i);
    PutMovesRefs(st, i);
    var e := st.itable[st.slots[i]];
    if e.ref > 1 {
      RefKeepsInv(st, st.slots[i], e.ref - 1);
    } else if e.valid && e.d.nlink == 0 {
      FreeKeepsInv(st, i);
      FreeKeepsTidy(st, i);
    } else {
      DropKeepsInv(st, i);
      DropOfSynced(st, i);
    }
  }

  lemma FreeKeepsTidy(st: State, i: nat)
    ensures Tidy(st) ==> Tidy(WithFree(st, i))
    ensures forall b :: b in st.owner && st.owner[b].inum != i ==>
      b in WithFree(st, i).owner && WithFree(st, i).owner[b] == st.owner[b]
  {
    hide Truncated;
  }

  /** Forgetting an inode that the disk has as it is. */
  lemma DropOfSynced(st: State, i: nat)
    requires Inv(st, 0) && Held(st, i) && Allocated(st.live, i)
    ensures st.inodes[i] == st.live[i] ==> SameDisk(st, WithDrop(st, i))
    ensures Tidy(st) ==> Tidy(WithDrop(st, i))
    ensures forall b :: b in st.owner && st.owner[b].inum != i ==>
      b in WithDrop(st, i).owner && WithDrop(st, i).owner[b] == st.owner[b]
  {
    hide Ptr, TableOk, FilesOk;
    if st.inodes[i] == st.live[i] {
      assert Remaining(st.data, st.owner, i, st.live[i]) == st.owner;
      assert st.live[i := st.live[i]] == st.live;
    }
  }

  lemma PutMovesRefs(st: State, i: nat)
    requires Inv(st, 0) && i in st.slots && Held(st, i)
    ensures RefsMoved(st, AfterPut(st, i), i, -1)
  {
    hide Inv, BlocksOf, Truncated, OwnerWithout, Remaining, FileOf;
    SlotsOfReferenced(st);
    var (st', s) := (AfterPut(st, i), st.slots[i]);
    assert |st'.itable| == |st.itable| && forall t: nat :: t < NINODE && t != s ==> st'.itable[t] == st.itable[t];
    assert st'.itable[s].ref == st.itable[s].ref - 1
      && (st.itable[s].ref > 1 ==> st'.itable[s].valid == st.itable[s].valid);
    assert st'.slots == if st.itable[s].ref == 1 then st.slots - {i} else st.slots;
    hide AfterPut;
  }

  lemma HeldIfReferenced(st: State, i: nat)
    requires Inv(st, 0) && i in st.slots
    ensures Held(st, i) && SlotOk(st.itable, st.slots[i], st.live, i) && |st.live| == |st.inodes|
  {
    hide TreesOk;
    assert SlotOk(st.itable, st.slots[i], st.live, i);
  }

  /** ialloc: the lowest free inode, now an empty file of the given type, referenced. */
  ghost predicate AllocOk(st: State, st': State, i: nat, typ: Short, ip: nat)
  {
    && 0 < i && Exists(st, i) && st.files[i] == Free && (forall j :: 1 <= j < i ==> st.files[j] != Free)
    && Inv(st', 0) && st'.files == st.files[i := File(typ, 0, 0, 0, [])]
    && st'.slots == st.slots[i := ip] && RefsMoved(st, st', i, 1)
    && st'.solid == st.solid + {i} && OnlyInode(st, st', i) && st'.live[i] == EmptyInode(typ)
  }

  lemma LowestIsFree(st: State, i: nat)
    requires Inv(st, 0) && 0 < i < |st.live| && st.live[i].typ == 0
    requires |st.inodes| == |st.live| ==> forall j :: 1 <= j < i ==> st.inodes[j].typ != 0
    ensures Exists(st, i) && st.files[i] == Free && forall j :: 1 <= j < i ==> st.files[j] != Free
  {
    hide Inv;
    LengthsAgree(st);
    TypeOfFile(st, i);
    forall j | 1 <= j < i ensures st.files[j] != Free { TypeOfFile(st, j); }
  }

  lemma RefsMovedAlike(st: State, st1: State, st': State, i: nat, delta: int)
    requires st1.itable == st.itable && st1.slots == st.slots && RefsMoved(st, st', i, delta)
    ensures RefsMoved(st1, st', i, delta)
  {
  }

  lemma ClaimThenGet(st: State, st': State, i: nat, typ: Short, ip: nat)
    requires Inv(st, 0) && 0 < i < |st.live| && st.live[i].typ == 0 && typ != 0
    requires forall j :: 1 <= j < i ==> st.inodes[j].typ != 0
    requires GetOk(WithClaim(st, i, typ), st', i, ip)
    ensures AllocOk(st, st', i, typ, ip)
  {
    hide Inv, RefsMoved, FileOf, Cached, EmptyInode;
    LowestIsFree(st, i);
    ClaimKeepsInv(st, i, typ);
    RefsMovedAlike(WithClaim(st, i, typ), st, st', i, 1);
  }

  /** A file is Free exactly when its inode, in memory and on disk, has type 0. */
  lemma TypeOfFile(st: State, i: nat)
    requires Inv(st, 0) && i < |st.live|
    ensures Exists(st, i) && (st.files[i] == Free <==> st.live[i].typ == 0) && st.inodes[i].typ == st.live[i].typ
    ensures st.files[i].File? ==> st.files[i].typ == st.live[i].typ && st.files[i].nlink == st.live[i].nlink
    ensures st.files[i].File? ==> st.files[i].major == st.live[i].major && st.files[i].minor == st.live[i].minor
    ensures st.files[i].File? ==> |st.files[i].bytes| == st.live[i].size <= MAXBYTES
  {
    assert st.live[i] == st.live[i];
    hide TreesOk, TableOk, ZeroTail, FileByte, FileBlock;
  }

  /** Assigning type-preserving fields and iupdate. */
  ghost predicate FieldsOk(st: State, st': State, i: nat, major: Short, minor: Short, nlink: Short)
  {
    && Inv(st', 0) && Exists(st, i) && st.files[i].File?
    && st'.files == st.files[i := st.files[i].(major := major, minor := minor, nlink := nlink)]
    && st'.slots == st.slots && SameRefs(st.itable, st'.itable)
    && st'.solid == st.solid && OnlyInode(st, st', i) && st'.live[i].addrs == st.live[i].addrs
  }

  ghost function AfterFields(st: State, i: nat, major: Short, minor: Short, nlink: Short): State
  {
    if !Exists(st, i) then st else
      WithSync(WithFields(st, i, st.live[i].(major := major, minor := minor, nlink := nlink)), i)
  }

  lemma FieldsAreOk(st: State, i: nat, major: Short, minor: Short, nlink: Short)
    requires Inv(st, 0) && Cached(st.itable, st.slots, i)
    ensures FieldsOk(st, AfterFields(st, i, major, minor, nlink), i, major, minor, nlink)
  {
    hide Inv, ZeroTail, Dense, Cached;
    StartUpdate(st, i);
    HeldFacts(st, i);
    TypeOfFile(st, i);
    SizeAndTail(st, i);
    var d := st.live[i].(major := major, minor := minor, nlink := nlink);
    if i in st.solid { SolidIsDense(st, 0, i); DenseIgnoresFields(st.data, st.live[i], d); }
    FieldsKeepInv(st, i, d);
    TailIgnoresFields(st.data, st.live[i], d);
    SyncKeepsInv(WithFields(st, i, d), i);
  }

  lemma SizeAndTail(st: State, i: nat)
    requires Inv(st, 0) && Allocated(st.live, i)
    ensures st.live[i].size <= MAXBYTES && ZeroTail(st.data, st.live[i])
    ensures i < |st.files| && st.files[i] == FileOf(st.data, st.live[i])
  {
    assert InodeOk(st.data, st.inodes[i], st.live[i], st.files[i]);
    hide Inv, FileOf, ZeroTail, Shadow;
  }

  lemma DenseIgnoresFields(data: Disk, d: Dinode, d': Dinode)
    requires Dense(data, d) && d'.size == d.size && d'.addrs == d.addrs
    ensures Dense(data, d')
  {
    hide Ptr, SlotOf;
    forall bn: nat | bn * BSIZE < d'.size ensures Ptr(data, d'.addrs, SlotOf(bn)) != 0 {
      assert SlotOf(bn) == SlotOf(bn);
    }
  }

  lemma TailIgnoresFields(data: Disk, d: Dinode, d': Dinode)
    requires ZeroTail(data, d) && d'.size == d.size && d'.addrs == d.addrs
    ensures ZeroTail(data, d') && Content(data, d') == Content(data, d)
  {
    hide FileByte;
    forall p: nat | d'.size <= p < MAXBYTES ensures FileByte(data, d'.addrs, p) == 0 {
      assert FileByte(data, d.addrs, p) == 0;
    }
  }

  lemma LengthsAgree(st: State)
    requires Inv(st, 0)
    ensures |st.live| == |st.inodes| == |st.files|
  {
    hide TreesOk, TableOk;
  }

  lemma GetOkFacts(st: State, st': State, i: nat, ip: nat)
    requires GetOk(st, st', i, ip)
    ensures Inv(st', 0) && st'.slots == st.slots[i := ip] && ip < NINODE && |st'.itable| == NINODE
    ensures st'.itable[ip].ref > 0 && st'.itable[ip].inum == i
  {
    hide Inv;
    SlotsOfReferenced(st');
    assert st'.slots[i] == ip;
  }
}
