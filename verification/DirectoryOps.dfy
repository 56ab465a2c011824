/** dirlookup, dirlink and the directory half of unlink (xv6fs/src/fs.c, sysfile.c). */
module DirectoryOps {
  import opened Layout
  import opened BlockTree
  import opened BlockStore
  import opened Invariant
  import opened Directory
  import opened FileSystem
  import opened References
  import opened Space

  /** The content of a file, nothing for a free inode. */
  function BytesOf(files: seq<File>, i: nat): seq<Byte>
  {
    if i < |files| && files[i].File? then files[i].bytes else []
  }

  /** Inode `d` is a directory in order: whole entries, unique names, no holes. */
  ghost predicate IsDir(st: State, d: nat)
  {
    Exists(st, d) && st.files[d].File? && st.files[d].typ == T_DIR && d in st.solid && DirOk(BytesOf(st.files, d))
  }

  /** Live entries name allocated inodes. */
  ghost predicate TargetsOk(files: seq<File>, bytes: seq<Byte>)
  {
    forall k {:trigger EntryAt(bytes, k)} :: 0 <= k < Count(bytes) && EntryAt(bytes, k).inum != 0 ==>
      EntryAt(bytes, k).inum < |files| && files[EntryAt(bytes, k).inum] != Free
  }

  /** readi of one whole entry of a directory. */
  method ReadEntry(fs: FileSystem, dp: nat, off: Uint, ghost d: nat) returns (de: Dirent)
    requires fs.store.Valid() && Inv(fs.St(), 0) && fs.At(dp, d) && |fs.store.pins| + 3 <= NBUF
    requires IsDir(fs.St(), d) && off % RECSIZE == 0 && off < |BytesOf(fs.files, d)|
    modifies fs, fs.store
    ensures fs.store.Valid() && fs.store.pins == old(fs.store.pins) && fs.St() == old(fs.St())
    ensures de == EntryAt(BytesOf(fs.files, d), off / RECSIZE)
  {
    hide Views, Inv, Quiet, DecodeDirent, DirOk;
    ghost var st := fs.St();
    DirSize(st, d);
    var dst := fs.ReadI(dp, off, RECSIZE, d);
    assert |dst| == RECSIZE && fs.St() == st by { QuietSolid(st, fs.St(), d); }
    de := DecodeDirent(dst);
  }

  lemma DirSize(st: State, d: nat)
    requires Inv(st, 0) && IsDir(st, d)
    ensures |BytesOf(st.files, d)| <= MAXBYTES && |BytesOf(st.files, d)| % RECSIZE == 0
    ensures d < |st.live| && st.live[d].size == |BytesOf(st.files, d)| && st.live[d].typ == T_DIR
  {
    hide Inv, EntryAt;
    LengthsAgree(st);
    TypeOfFile(st, d);
  }

  lemma QuietSolid(st: State, st': State, d: nat)
    requires Quiet(st, st', d) && d in st.solid
    ensures st' == st
  {
    hide Inv;
  }

  /** There is a table entry for the inode that directory `d` binds the name to, if it does. */
  predicate LookupRoom(files: seq<File>, keys: set<nat>, d: nat, name: Name)
  {
    name in DirMap(BytesOf(files, d)) ==> RoomFor(keys, DirMap(BytesOf(files, d))[name])
  }

  /** dirlookup: the inode a live entry with this name refers to, and the entry's offset. */
  method DirLookup(fs: FileSystem, dp: nat, name: seq<Byte>, ghost d: nat) returns (found: bool, ip: nat, off: nat)
    requires fs.store.Valid() && Inv(fs.St(), 0) && fs.At(dp, d) && |fs.store.pins| + 3 <= NBUF
    requires IsDir(fs.St(), d) && TargetsOk(fs.files, BytesOf(fs.files, d))
    requires LookupRoom(fs.files, fs.slots.Keys, d, Cut(name, DIRSIZ))
    modifies fs, fs.store
    ensures fs.store.Valid() && fs.store.pins == old(fs.store.pins)
    ensures LookupOk(old(fs.St()), fs.St(), d, Cut(name, DIRSIZ), found, ip, off)
  {
    hide Views, Inv, IsDir, TargetsOk, GetOk, EntryAt, Cut, SameUpTo, LookupRoom;
    ghost var (st, bytes) := (fs.St(), BytesOf(fs.files, d));
    DirSize(st, d);
    QuietStart(st, d);
    off := 0;
    while off < fs.itable[dp].d.size
      invariant off % RECSIZE == 0 && off <= |bytes|
      invariant fs.store.Valid() && fs.store.pins == old(fs.store.pins) && fs.St() == st
      invariant forall k {:trigger EntryAt(bytes, k)} :: 0 <= k < off / RECSIZE ==>
        EntryAt(bytes, k).inum == 0 || EntryAt(bytes, k).name != Cut(name, DIRSIZ)
      decreases |bytes| - off
    {
      var de := ReadEntry(fs, dp, off, d);
      if de.inum != 0 {
        EntryName(bytes, off / RECSIZE);
        NameCmpIsEqualNames(name, de.name, DIRSIZ);
        if NameCmp(name, de.name) {
          Target(st, d, off / RECSIZE);
          TargetRoom(st, d, off / RECSIZE);
          ip := fs.IGet(de.inum);
          found := true;
          return;
        }
      }
      off := off + RECSIZE;
    }
    found, ip := false, NINODE;
  }

  /** What dirlookup returns, against the directory as a map. */
  ghost predicate LookupOk(st: State, st': State, d: nat, name: Name, found: bool, ip: nat, off: nat)
  {
    var bytes := BytesOf(st.files, d);
    if found then
      && off % RECSIZE == 0 && off / RECSIZE < Count(bytes)
      && EntryAt(bytes, off / RECSIZE).inum != 0 && EntryAt(bytes, off / RECSIZE).name == name
      && GetOk(st, st', EntryAt(bytes, off / RECSIZE).inum, ip)
    else
      && st' == st
      && (forall k {:trigger EntryAt(bytes, k)} :: 0 <= k < Count(bytes) ==>
         EntryAt(bytes, k).inum == 0 || EntryAt(bytes, k).name != name)
  }

  lemma EntryName(bytes: seq<Byte>, k: nat)
    requires k < Count(bytes)
    ensures Cut(EntryAt(bytes, k).name, DIRSIZ) == EntryAt(bytes, k).name
  {
    CutTwice(bytes[RECSIZE * k..RECSIZE * k + RECSIZE][2..], DIRSIZ);
  }

  lemma {:induction false} CutTwice(s: seq<Byte>, n: nat)
    ensures Cut(Cut(s, n), n) == Cut(s, n)
  {
    if !(n == 0 || s == [] || s[0] == 0) {
      CutTwice(s[1..], n - 1);
      assert Cut(s, n)[1..] == Cut(s[1..], n - 1);
    }
  }

  lemma Target(st: State, d: nat, k: nat)
    requires Inv(st, 0) && IsDir(st, d) && TargetsOk(st.files, BytesOf(st.files, d)) && k < Count(BytesOf(st.files, d))
    requires EntryAt(BytesOf(st.files, d), k).inum != 0
    ensures Allocated(st.live, EntryAt(BytesOf(st.files, d), k).inum)
  {
    hide Inv, EntryAt, IsDir;
    LengthsAgree(st);
    TypeOfFile(st, EntryAt(BytesOf(st.files, d), k).inum);
  }

  lemma TargetRoom(st: State, d: nat, k: nat)
    requires IsDir(st, d) && k < Count(BytesOf(st.files, d)) && EntryAt(BytesOf(st.files, d), k).inum != 0
    requires LookupRoom(st.files, st.slots.Keys, d, EntryAt(BytesOf(st.files, d), k).name)
    ensures RoomFor(st.slots.Keys, EntryAt(BytesOf(st.files, d), k).inum)
  {
    EntryBinds(BytesOf(st.files, d), Count(BytesOf(st.files, d)), k);
    hide EntryAt;
  }

  /** dirlookup finds a name exactly when the directory binds it, and then its inode. */
  lemma LookupIsTheMap(st: State, st': State, d: nat, name: Name, found: bool, ip: nat, off: nat)
    requires LookupOk(st, st', d, name, found, ip, off) && DirOk(BytesOf(st.files, d))
    ensures found <==> name in DirMap(BytesOf(st.files, d))
    ensures found ==> GetOk(st, st', DirMap(BytesOf(st.files, d))[name], ip)
  {
    hide GetOk, EntryAt;
    var bytes := BytesOf(st.files, d);
    if found {
      EntryBinds(bytes, Count(bytes), off / RECSIZE);
    } else if name in DirMap(bytes) {
      var k := BoundByEntry(bytes, Count(bytes), name);
    }
  }

  // ---------- dirlink ----------

  /** iget then iput of the same inode leaves everything as it was. */
  lemma GetThenPut(st: State, st1: State, st2: State, i: nat, ip: nat)
    requires Inv(st, 0) && GetOk(st, st1, i, ip) && PutOk(st1, st2, i)
    ensures Inv(st2, 0) && SameDisk(st, st2) && RefsKept(st, st2)
  {
    hide Inv, GetOk, PutOk, Holding, RefsKept;
    HoldNothing(st);
    HoldAfterGet(st, st, st1, multiset{}, i, ip);
    assert multiset{} + multiset{i} == multiset{i} && multiset{i} - multiset{i} == multiset{};
    HoldAfterPut(st, st1, st2, multiset{i}, i);
    assert !LastPut(st1, i) by { NotLoaded(st, st1, i, ip); }
    PutExists(st1, st2, i);
    hide LastPut;
    UnreferencedIsSynced(st, i);
    PutLeavesNoTrace(st, st1, st2, multiset{i}, i);
    HoldsNothing(st, st2);
  }

  /** An inode that nobody referred to is not loaded by iget. */
  lemma NotLoaded(st: State, st1: State, i: nat, ip: nat)
    requires Inv(st, 0) && GetOk(st, st1, i, ip)
    ensures !LastPut(st1, i)
  {
    hide Inv;
    ReferencedIffPositive(st);
    assert RefOf(st1.itable, st1.slots, i) == RefOf(st.itable, st.slots, i) + 1;
  }

  lemma HoldsNothing(st: State, st': State)
    requires Inv(st, 0) && Holding(st, st', multiset{})
    ensures RefsKept(st, st') && Inv(st', 0)
  {
    hide Inv;
    ReferencedIffPositive(st);
    ReferencedIffPositive(st');
    forall j: nat ensures RefOf(st'.itable, st'.slots, j) == RefOf(st.itable, st.slots, j) {
      assert RefOf(st'.itable, st'.slots, j) == RefOf(st.itable, st.slots, j) + multiset{}[j];
    }
    hide RefOf;
    forall j: nat ensures j in st'.slots <==> j in st.slots {
      assert RefOf(st'.itable, st'.slots, j) == RefOf(st.itable, st.slots, j);
    }
    hide Cached;
    assert st'.slots == st.slots;
  }

  /** Record `j` after record `k` has been replaced by, or appended as, `r`. */
  lemma SplicedRecord(bytes: seq<Byte>, k: nat, r: Record, j: nat)
    requires |bytes| % RECSIZE == 0 && k <= Count(bytes) && j < Count(Splice(bytes, RECSIZE * k, r))
    ensures j != k ==> j < Count(bytes)
    ensures Splice(bytes, RECSIZE * k, r)[RECSIZE * j..RECSIZE * j + RECSIZE] ==
      if j == k then r else bytes[RECSIZE * j..RECSIZE * j + RECSIZE]
  {
    var piece := Splice(bytes, RECSIZE * k, r)[RECSIZE * j..RECSIZE * j + RECSIZE];
    var want: seq<Byte> := if j == k then r else bytes[RECSIZE * j..RECSIZE * j + RECSIZE];
    forall p: nat | p < RECSIZE ensures piece[p] == want[p] {
      assert piece[p] == Splice(bytes, RECSIZE * k, r)[RECSIZE * j + p];
    }
  }

  /** Splicing a whole record at an entry boundary replaces, or appends, one entry. */
  lemma SpliceEntry(bytes: seq<Byte>, k: nat, r: Record)
    requires |bytes| % RECSIZE == 0 && k <= Count(bytes)
    ensures Replaced(bytes, Splice(bytes, RECSIZE * k, r), k, DecodeDirent(r))
  {
    var bytes' := Splice(bytes, RECSIZE * k, r);
    hide DecodeDirent;
    forall j: nat | j < Count(bytes')
      ensures EntryAt(bytes', j) == if j == k then DecodeDirent(r) else EntryAt(bytes, j)
    {
      SplicedRecord(bytes, k, r, j);
    }
  }

  lemma SpliceNothing(bytes: seq<Byte>, off: nat)
    requires off <= |bytes|
    ensures Splice(bytes, off, []) == bytes
  {
  }

  /** The first empty entry, or one at the end, now binds `name`, and no other has changed. */
  ghost predicate FirstEmptyTaken(bytes: seq<Byte>, bytes': seq<Byte>, name: Name, inum: nat)
  {
    exists k: nat {:trigger EntryAt(bytes', k)} :: k < Count(bytes') && k <= Count(bytes)
      && (k < Count(bytes) ==> EntryAt(bytes, k).inum == 0)
      && EntryAt(bytes', k).name == name && EntryAt(bytes', k).inum == inum
      && Replaced(bytes, bytes', k, EntryAt(bytes', k))
      && forall j {:trigger EntryAt(bytes, j)} :: 0 <= j < k ==> EntryAt(bytes, j).inum != 0
  }

  ghost predicate NoEmptyEntry(bytes: seq<Byte>)
  {
    forall k {:trigger EntryAt(bytes, k)} :: 0 <= k < Count(bytes) ==> EntryAt(bytes, k).inum != 0
  }

  /** The pointers on the way to an entry at the end of directory `d`. */
  function EndSlots(st: State, d: nat): set<Slot> { SlotsIn(|BytesOf(st.files, d)|, RECSIZE) }

  /** Directory `d` has an empty entry, or can have one more: it is not at its greatest, and
      the blocks missing on the way to its end are no more than the free ones. */
  ghost predicate HasPlace(st: State, d: nat)
  {
    !NoEmptyEntry(BytesOf(st.files, d))
    || (|BytesOf(st.files, d)| + RECSIZE <= MAXBYTES && |Wanted(st, d, EndSlots(st, d))| <= |Unmarked(st)|)
  }

  /** The blocks in use once directory `d` was to get an entry.  If it had to grow, the missing
      blocks on the way to its end have come into use, or all that were free if that was too few. */
  ghost predicate Extended(st: State, st': State, d: nat)
  {
    && st'.data.Keys == st.data.Keys && st.marked <= st'.marked
    && (forall b {:trigger b in st'.marked} :: b in st'.marked && b !in st.marked ==>
       NewIn(st, st', b, d, EndSlots(st, d)))
    && if !NoEmptyEntry(BytesOf(st.files, d)) || |BytesOf(st.files, d)| + RECSIZE > MAXBYTES
       then st'.marked == st.marked
       else if HasPlace(st, d) then |Taken(st, st')| == |Wanted(st, d, EndSlots(st, d))|
       else st'.marked == st.marked + Unmarked(st)
  }

  /** For directory `d` there is the same to take in both states. */
  ghost predicate SameSpace(st: State, st1: State, d: nat)
  {
    && st1.data == st.data && st1.marked == st.marked && BytesOf(st1.files, d) == BytesOf(st.files, d)
    && d < |st.live| && d < |st1.live| && st1.live[d] == st.live[d]
  }

  ghost predicate SameMarks(st: State, st': State) { st'.data.Keys == st.data.Keys && st'.marked == st.marked }

  lemma PlaceAlike(st: State, st1: State, d: nat)
    requires SameSpace(st, st1, d)
    ensures HasPlace(st1, d) == HasPlace(st, d) && EndSlots(st1, d) == EndSlots(st, d)
    ensures Wanted(st1, d, EndSlots(st1, d)) == Wanted(st, d, EndSlots(st, d)) && Unmarked(st1) == Unmarked(st)
  {
    hide Ptr, SlotsIn, NoEmptyEntry;
  }

  /** ... and the same has been taken when the blocks of the directory are. */
  lemma ExtendedAlike(st: State, st1: State, st2: State, st3: State, d: nat)
    requires SameSpace(st, st1, d) && Extended(st1, st2, d) && SameMarks(st2, st3)
    requires StillOwned(st2.owner, st3.owner, d)
    ensures Extended(st, st3, d)
  {
    hide HasPlace, EndSlots, Wanted, Unmarked, NoEmptyEntry;
    PlaceAlike(st, st1, d);
    forall b | b in st3.marked && b !in st.marked ensures NewIn(st, st3, b, d, EndSlots(st, d)) {
      assert NewIn(st1, st2, b, d, EndSlots(st1, d));
    }
    assert Taken(st, st3) == Taken(st1, st2);
  }

  lemma ExtendedStays(st: State, st2: State, st3: State, d: nat)
    requires Extended(st, st2, d) && SameMarks(st2, st3)
    requires StillOwned(st2.owner, st3.owner, d)
    ensures Extended(st, st3, d)
  {
    hide HasPlace, EndSlots, Wanted, Unmarked, NoEmptyEntry;
    forall b | b in st3.marked && b !in st.marked ensures NewIn(st, st3, b, d, EndSlots(st, d)) {
      assert NewIn(st, st2, b, d, EndSlots(st, d));
    }
    assert Taken(st, st3) == Taken(st, st2);
  }

  /** dirlink.  It succeeds just when the name is new and the directory has a place for it. */
  ghost predicate LinkOk(st: State, st': State, d: nat, name: Name, inum: nat, r: int)
  {
    var (bytes, bytes') := (BytesOf(st.files, d), BytesOf(st'.files, d));
    && Inv(st', 0) && RefsKept(st, st') && st'.solid == st.solid && IsDir(st', d) && (Tidy(st) ==> Tidy(st'))
    && if name in DirMap(bytes) then r == -1 && SameDisk(st, st')
       else
         && r == (if HasPlace(st, d) then 0 else -1) && Hung(st, st', d, EndSlots(st, d)) && Extended(st, st', d)
         && Exists(st, d) && Exists(st', d) && st.files[d].File? && st'.inodes == st.inodes[d := st'.inodes[d]]
         && st'.files == (if r == 0 then st.files[d := st.files[d].(bytes := bytes')] else st.files)
         && (r == 0 ==> DirMap(bytes') == DirMap(bytes)[name := inum] && FirstEmptyTaken(bytes, bytes', name, inum))
  }

  /** The second loop of dirlink: the offset of the first empty entry, or the size. */
  method FindEmpty(fs: FileSystem, dp: nat, ghost d: nat) returns (off: nat)
    requires fs.store.Valid() && Inv(fs.St(), 0) && fs.At(dp, d) && |fs.store.pins| + 3 <= NBUF && IsDir(fs.St(), d)
    modifies fs, fs.store
    ensures fs.store.Valid() && fs.store.pins == old(fs.store.pins) && fs.St() == old(fs.St())
    ensures off % RECSIZE == 0 && off <= |BytesOf(fs.files, d)| && |BytesOf(fs.files, d)| % RECSIZE == 0
    ensures off < |BytesOf(fs.files, d)| ==> EntryAt(BytesOf(fs.files, d), off / RECSIZE).inum == 0
    ensures forall k {:trigger EntryAt(BytesOf(fs.files, d), k)} :: 0 <= k < off / RECSIZE ==>
      EntryAt(BytesOf(fs.files, d), k).inum != 0
  {
    hide Views, Inv, IsDir, EntryAt;
    ghost var (st, bytes) := (fs.St(), BytesOf(fs.files, d));
    DirSize(st, d);
    QuietStart(st, d);
    off := 0;
    while off < fs.itable[dp].d.size
      invariant off % RECSIZE == 0 && off <= |bytes|
      invariant fs.store.Valid() && fs.store.pins == old(fs.store.pins) && fs.St() == st
      invariant forall k {:trigger EntryAt(bytes, k)} :: 0 <= k < off / RECSIZE ==> EntryAt(bytes, k).inum != 0
      decreases |bytes| - off
    {
      var de := ReadEntry(fs, dp, off, d);
      if de.inum == 0 { return; }
      off := off + RECSIZE;
    }
  }

  /** dirlink: 0 when the name was added, -1 when it was there already or there is no space. */
  method DirLink(fs: FileSystem, dp: nat, name: seq<Byte>, inum: Ushort, ghost d: nat) returns (r: int)
    requires fs.store.Valid() && Inv(fs.St(), 0) && fs.At(dp, d) && |fs.store.pins| + 3 <= NBUF && inum != 0
    requires IsDir(fs.St(), d) && TargetsOk(fs.files, BytesOf(fs.files, d))
    requires LookupRoom(fs.files, fs.slots.Keys, d, Cut(name, DIRSIZ))
    modifies fs, fs.store
    ensures fs.store.Valid() && fs.store.pins == old(fs.store.pins)
    ensures LinkOk(old(fs.St()), fs.St(), d, Cut(name, DIRSIZ), inum, r)
  {
    hide Views, Inv, IsDir, TargetsOk, GetOk, PutOk, LinkOk, LookupOk, WriteOk, EntryAt, Cut, EncodeDirent, RefsKept;
    ghost var st := fs.St();
    var found, ip, off := DirLookup(fs, dp, name, d);
    if found {
      ghost var st1 := fs.St();
      LookupEntry(st, st1, d, Cut(name, DIRSIZ), ip, off);
      fs.IPut(ip);
      LinkFound(st, st1, fs.St(), d, Cut(name, DIRSIZ), inum, ip, off);
      return -1;
    }
    LookupMiss(st, fs.St(), d, Cut(name, DIRSIZ), ip, off);
    off := FindEmpty(fs, dp, d);
    DirSize(st, d);
    var w := fs.WriteI(dp, EncodeDirent(inum, name), off, d);
    LinkWritten(st, fs.St(), d, name, inum, off, w);
    r := if w != RECSIZE then -1 else 0;
  }

  lemma LookupEntry(st: State, st1: State, d: nat, name: Name, ip: nat, off: nat)
    requires LookupOk(st, st1, d, name, true, ip, off)
    ensures Inv(st1, 0) && ip < NINODE && |st1.itable| == NINODE && st1.itable[ip].ref > 0
    ensures off / RECSIZE < Count(BytesOf(st.files, d))
    ensures st1.itable[ip].inum == EntryAt(BytesOf(st.files, d), off / RECSIZE).inum
    ensures GetOk(st, st1, st1.itable[ip].inum, ip)
  {
    hide Inv, EntryAt, GetOk;
    GetOkFacts(st, st1, EntryAt(BytesOf(st.files, d), off / RECSIZE).inum, ip);
  }

  lemma LookupMiss(st: State, st1: State, d: nat, name: Name, ip: nat, off: nat)
    requires LookupOk(st, st1, d, name, false, ip, off) && IsDir(st, d)
    ensures st1 == st && name !in DirMap(BytesOf(st.files, d))
  {
    hide GetOk, EntryAt;
    LookupIsTheMap(st, st1, d, name, false, ip, off);
  }

  lemma LinkFound(st: State, st1: State, st2: State, d: nat, name: Name, inum: nat, ip: nat, off: nat)
    requires Inv(st, 0) && IsDir(st, d) && LookupOk(st, st1, d, name, true, ip, off)
    requires PutOk(st1, st2, EntryAt(BytesOf(st.files, d), off / RECSIZE).inum)
    ensures LinkOk(st, st2, d, name, inum, -1)
  {
    hide Inv, EntryAt, GetOk, PutOk, RefsKept, DirOk, HasPlace, Extended, NoLeak, Hung;
    LookupIsTheMap(st, st1, d, name, true, ip, off);
    GetThenPut(st, st1, st2, EntryAt(BytesOf(st.files, d), off / RECSIZE).inum, ip);
    LengthsAgree(st2);
    SameDiskTidy(st, st2);
  }

  /** dirlink's writei failed, which it does only at the end of the directory. */
  lemma LinkNotWritten(st: State, st': State, d: nat, name: Name, inum: Ushort, off: Uint, rec: Record, w: int)
    requires Inv(st, 0) && IsDir(st, d) && name !in DirMap(BytesOf(st.files, d))
    requires off % RECSIZE == 0 && off <= |BytesOf(st.files, d)| && |BytesOf(st.files, d)| % RECSIZE == 0
    requires forall k {:trigger EntryAt(BytesOf(st.files, d), k)} :: 0 <= k < off / RECSIZE ==>
      EntryAt(BytesOf(st.files, d), k).inum != 0
    requires WriteOk(st, st', d, off, rec, w) && w != RECSIZE
    ensures LinkOk(st, st', d, name, inum, -1)
  {
    hide Inv, EntryAt, Splice, RefsKept, DirMap, RangeMapped, NoLeak, Hung, SlotsIn, AtHole, FullDisk, DirOk, HasPlace,
         Extended, EndSlots, Tidy;
    var bytes := BytesOf(st.files, d);
    DirSize(st, d);
    assert off == |bytes|;
    SameRefsKept(st, st');
    NoPlace(st, st', d, off, rec, w);
    if Tidy(st) { WriteKeepsTidy(st, st', d, off, rec, w); }
    if !Refused(off, RECSIZE) {
      assert w == 0;
      SpliceNothing(bytes, off);
    }
  }

  /** What the failed write has taken. */
  lemma NoPlace(st: State, st': State, d: nat, off: Uint, rec: Record, w: int)
    requires Inv(st, 0) && IsDir(st, d) && off == |BytesOf(st.files, d)| && NoEmptyEntry(BytesOf(st.files, d))
    requires WriteOk(st, st', d, off, rec, w) && w != RECSIZE && off <= MAXBYTES
    ensures !HasPlace(st, d) && Hung(st, st', d, EndSlots(st, d)) && Extended(st, st', d)
  {
    hide Inv, DirOk, NoEmptyEntry, SlotsIn, Wanted, Unmarked, Splice, RangeMapped, FullDisk, AtHole, NoLeak;
    HungItself(st, d, EndSlots(st, d));
    if !Refused(off, RECSIZE) {
      WriteFitsIff(st, st', d, off, rec, w);
      WriteGrew(st, st', d, off, rec, w);
      FullTakesAll(st, st', d, SlotsIn(off, RECSIZE));
      assert FullDisk(st') && Hung(st, st', d, SlotsIn(off, RECSIZE));
      assert st'.marked == st.marked + Taken(st, st') by { hide WriteOk, Grew; }
      hide WriteOk, Grew;
    }
  }

  lemma SameDiskTidy(st: State, st': State)
    requires SameDisk(st, st')
    ensures Tidy(st) ==> Tidy(st')
  {
  }

  /** What a complete write has taken. */
  lemma PlaceTaken(st: State, st': State, d: nat, off: Uint, rec: Record)
    requires Inv(st, 0) && IsDir(st, d) && off % RECSIZE == 0 && off <= |BytesOf(st.files, d)|
    requires !Refused(off, RECSIZE) && WriteOk(st, st', d, off, rec, RECSIZE)
    requires if off < |BytesOf(st.files, d)| then st'.marked == st.marked && !NoEmptyEntry(BytesOf(st.files, d))
             else NoEmptyEntry(BytesOf(st.files, d))
    ensures HasPlace(st, d) && Hung(st, st', d, EndSlots(st, d)) && Extended(st, st', d)
  {
    hide Inv, DirOk, NoEmptyEntry, SlotsIn, Wanted, Unmarked, Splice, RangeMapped, FullDisk, AtHole, NoLeak;
    WriteFitsIff(st, st', d, off, rec, RECSIZE);
    assert Hung(st, st', d, SlotsIn(off, RECSIZE));
    hide WriteOk;
    if off < |BytesOf(st.files, d)| { HungNowhere(st, st', d, SlotsIn(off, RECSIZE), EndSlots(st, d)); }
  }

  lemma HungNowhere(st: State, st': State, i: nat, slots: set<Slot>, others: set<Slot>)
    requires Hung(st, st', i, slots) && st'.marked == st.marked
    ensures Hung(st, st', i, others) && st'.owner == st.owner
  {
  }

  /** A whole record is written over, or after, an entry of a directory. */
  lemma RecordWritten(st: State, st': State, d: nat, off: Uint, rec: Record)
    requires Inv(st, 0) && IsDir(st, d) && off <= |BytesOf(st.files, d)|
    requires !Refused(off, RECSIZE) && WriteOk(st, st', d, off, rec, RECSIZE)
    ensures Inv(st', 0) && RefsKept(st, st') && Exists(st, d) && Exists(st', d) && st.files[d].File?
    ensures st'.solid == st.solid && st'.inodes == st.inodes[d := st'.inodes[d]]
    ensures st'.files == st.files[d := st.files[d].(bytes := Splice(BytesOf(st.files, d), off, rec))]
    ensures |st'.live| == |st'.inodes| == |st'.files|
  {
    hide Inv, DirOk, Splice, NoLeak, Hung, SlotsIn, AtHole, FullDisk, RangeMapped;
    assert rec[..RECSIZE] == rec;
    SameRefsKept(st, st');
    hide RefsKept;
    LengthsAgree(st');
  }

  lemma RecordOver(st: State, st': State, d: nat, off: Uint, rec: Record)
    requires Inv(st, 0) && IsDir(st, d) && off + RECSIZE <= |BytesOf(st.files, d)|
    requires !Refused(off, RECSIZE) && WriteOk(st, st', d, off, rec, RECSIZE)
    ensures st'.marked == st.marked && |Splice(BytesOf(st.files, d), off, rec)| == |BytesOf(st.files, d)|
  {
    hide Inv, WriteOk, DirOk;
    OverwriteTakesNothing(st, st', d, off, rec, RECSIZE);
  }

  /** The whole entry is written. */
  lemma LinkIsWritten(st: State, st': State, d: nat, name: seq<Byte>, inum: Ushort, off: Uint)
    requires Inv(st, 0) && IsDir(st, d) && Cut(name, DIRSIZ) !in DirMap(BytesOf(st.files, d)) && inum != 0
    requires off % RECSIZE == 0 && off <= |BytesOf(st.files, d)| && |BytesOf(st.files, d)| % RECSIZE == 0
    requires off < |BytesOf(st.files, d)| ==> EntryAt(BytesOf(st.files, d), off / RECSIZE).inum == 0
    requires forall k {:trigger EntryAt(BytesOf(st.files, d), k)} :: 0 <= k < off / RECSIZE ==>
      EntryAt(BytesOf(st.files, d), k).inum != 0
    requires !Refused(off, RECSIZE) && WriteOk(st, st', d, off, EncodeDirent(inum, name), RECSIZE)
    ensures LinkOk(st, st', d, Cut(name, DIRSIZ), inum, 0)
  {
    hide Inv, IsDir, WriteOk, EntryAt, Cut, EncodeDirent, DecodeDirent, DirMap, FullDisk, NoEmptyEntry, Replaced, DirOk,
         HasPlace, Extended, Hung, EndSlots, Tidy;
    var (bytes, rec, k) := (BytesOf(st.files, d), EncodeDirent(inum, name), off / RECSIZE);
    var bytes' := Splice(bytes, off, rec);
    RecordWritten(st, st', d, off, rec);
    if off < |bytes| { RecordOver(st, st', d, off, rec); }
    assert NoEmptyEntry(bytes) <==> off == |bytes| by { EmptyAt(bytes, k); }
    PlaceTaken(st, st', d, off, rec);
    if Tidy(st) { WriteKeepsTidy(st, st', d, off, rec, RECSIZE); }
    hide Splice, RefsKept;
    assert DirOk(bytes) by { IsDirUnfold(st, d); }
    SpliceEntry(bytes, k, rec);
    DirentRoundTrip(inum, name);
    BindingAdded(bytes, bytes', k, Dirent(inum, Cut(name, DIRSIZ)));
    ReplacedAt(bytes, bytes', k, Dirent(inum, Cut(name, DIRSIZ)));
    assert FirstEmptyTaken(bytes, bytes', Cut(name, DIRSIZ), inum);
    StillDir(st, st', d, bytes');
  }

  lemma EmptyAt(bytes: seq<Byte>, k: nat)
    requires |bytes| % RECSIZE == 0 && k <= Count(bytes)
    requires k < Count(bytes) ==> EntryAt(bytes, k).inum == 0
    requires forall j {:trigger EntryAt(bytes, j)} :: 0 <= j < k ==> EntryAt(bytes, j).inum != 0
    ensures NoEmptyEntry(bytes) <==> RECSIZE * k == |bytes|
  {
    hide EntryAt;
  }

  lemma ReplacedAt(bytes: seq<Byte>, bytes': seq<Byte>, k: nat, e: Dirent)
    requires Replaced(bytes, bytes', k, e)
    ensures k < Count(bytes') && k <= Count(bytes) && EntryAt(bytes', k) == e
  {
    hide EntryAt;
  }

  lemma IsDirUnfold(st: State, d: nat)
    requires IsDir(st, d)
    ensures Exists(st, d) && st.files[d].File? && DirOk(BytesOf(st.files, d)) && |BytesOf(st.files, d)| % RECSIZE == 0
  {
    hide EntryAt;
  }

  lemma StillDir(st: State, st': State, d: nat, bytes: seq<Byte>)
    requires IsDir(st, d) && st'.solid == st.solid && Exists(st', d) && DirOk(bytes) && BytesOf(st'.files, d) == bytes
    requires st'.files == st.files[d := st.files[d].(bytes := bytes)]
    ensures IsDir(st', d)
  {
    hide DirOk;
  }

  lemma LinkWritten(st: State, st': State, d: nat, name: seq<Byte>, inum: Ushort, off: Uint, w: int)
    requires Inv(st, 0) && IsDir(st, d) && Cut(name, DIRSIZ) !in DirMap(BytesOf(st.files, d)) && inum != 0
    requires off % RECSIZE == 0 && off <= |BytesOf(st.files, d)| && |BytesOf(st.files, d)| % RECSIZE == 0
    requires off < |BytesOf(st.files, d)| ==> EntryAt(BytesOf(st.files, d), off / RECSIZE).inum == 0
    requires forall k {:trigger EntryAt(BytesOf(st.files, d), k)} :: 0 <= k < off / RECSIZE ==>
      EntryAt(BytesOf(st.files, d), k).inum != 0
    requires WriteOk(st, st', d, off, EncodeDirent(inum, name), w)
    ensures LinkOk(st, st', d, Cut(name, DIRSIZ), inum, if w != RECSIZE then -1 else 0)
  {
    if w == RECSIZE {
      assert !Refused(off, RECSIZE) by { hide Inv, Hung, RangeMapped, AtHole, FullDisk, Splice; }
      hide WriteOk, LinkOk, IsDir, Inv, EntryAt, Cut;
      LinkIsWritten(st, st', d, name, inum, off);
    } else {
      hide WriteOk, LinkOk, IsDir, Inv, EntryAt, Cut;
      LinkNotWritten(st, st', d, Cut(name, DIRSIZ), inum, off, EncodeDirent(inum, name), w);
    }
  }

  // ---------- unlink's half ----------

  /** The directory entry at `off` has been cleared. */
  ghost predicate EraseOk(st: State, st': State, d: nat, name: Name)
  {
    var (bytes, bytes') := (BytesOf(st.files, d), BytesOf(st'.files, d));
    && Inv(st', 0) && RefsKept(st, st') && st'.solid == st.solid && IsDir(st', d)
    && d < |st.files| && st.files[d].File? && st'.files == st.files[d := st.files[d].(bytes := bytes')]
    && name in DirMap(bytes) && DirMap(bytes') == DirMap(bytes) - {name}
    && |bytes'| == |bytes| && st'.marked == st.marked && st'.owner == st.owner && (Tidy(st) ==> Tidy(st'))
  }

  /** Overwrites an entry with zeros.  The panic "unlink: writei" is unreachable because the
      directory has no holes. */
  method Erase(fs: FileSystem, dp: nat, off: Uint, ghost d: nat)
    requires fs.store.Valid() && Inv(fs.St(), 0) && fs.At(dp, d) && |fs.store.pins| + 3 <= NBUF && IsDir(fs.St(), d)
    requires off % RECSIZE == 0 && off / RECSIZE < Count(BytesOf(fs.files, d))
    requires EntryAt(BytesOf(fs.files, d), off / RECSIZE).inum != 0
    modifies fs, fs.store
    ensures fs.store.Valid() && fs.store.pins == old(fs.store.pins)
    ensures EraseOk(old(fs.St()), fs.St(), d, EntryAt(BytesOf(old(fs.files), d), off / RECSIZE).name)
  {
    hide Views, Inv, IsDir, WriteOk, EraseOk, EntryAt;
    ghost var st := fs.St();
    var r := fs.WriteI(dp, ZeroRecord(), off, d);
    ErasedEntry(st, fs.St(), d, off, r);
    assert r == RECSIZE;
  }

  lemma ErasedEntry(st: State, st': State, d: nat, off: Uint, r: int)
    requires Inv(st, 0) && IsDir(st, d) && off % RECSIZE == 0 && off / RECSIZE < Count(BytesOf(st.files, d))
    requires EntryAt(BytesOf(st.files, d), off / RECSIZE).inum != 0
    requires WriteOk(st, st', d, off, ZeroRecord(), r)
    ensures r == RECSIZE && EraseOk(st, st', d, EntryAt(BytesOf(st.files, d), off / RECSIZE).name)
  {
    hide Inv, IsDir, WriteOk, EntryAt, ZeroRecord, DecodeDirent, DirMap, DirOk, Replaced;
    var (bytes, bytes', k) := (BytesOf(st.files, d), Splice(BytesOf(st.files, d), off, ZeroRecord()), off / RECSIZE);
    ZeroWritten(st, st', d, off, r);
    IsDirUnfold(st, d);
    EntryInMap(bytes, k);
    RecordWritten(st, st', d, off, ZeroRecord());
    RecordOver(st, st', d, off, ZeroRecord());
    OverKeepsOwners(st, st', d, off, ZeroRecord());
    hide Splice, RefsKept, Tidy;
    ZeroRecordIsEmpty();
    SpliceEntry(bytes, k, ZeroRecord());
    BindingRemoved(bytes, bytes', k, DecodeDirent(ZeroRecord()));
    StillDir(st, st', d, bytes');
  }

  lemma OverKeepsOwners(st: State, st': State, d: nat, off: Uint, rec: Record)
    requires !Refused(off, RECSIZE) && WriteOk(st, st', d, off, rec, RECSIZE) && st'.marked == st.marked
    ensures st'.owner == st.owner && (Tidy(st) ==> Tidy(st'))
  {
    if Tidy(st) { WriteKeepsTidy(st, st', d, off, rec, RECSIZE); }
    hide Inv, SlotsIn, Splice, RangeMapped, FullDisk, AtHole, NoLeak;
    HungNowhere(st, st', d, SlotsIn(off, RECSIZE), SlotsIn(off, RECSIZE));
  }

  /** Clearing an entry is never refused and never short. */
  lemma ZeroWritten(st: State, st': State, d: nat, off: Uint, r: int)
    requires Inv(st, 0) && IsDir(st, d) && off + RECSIZE <= |BytesOf(st.files, d)|
      && WriteOk(st, st', d, off, ZeroRecord(), r)
    ensures r == RECSIZE && !Refused(off, RECSIZE)
  {
    DirSize(st, d);
    assert |ZeroRecord()| == RECSIZE;
    hide Inv, DirOk, Splice, NoLeak, Hung, SlotsIn, AtHole, FullDisk, RangeMapped, ZeroRecord;
  }

  lemma EntryInMap(bytes: seq<Byte>, k: nat)
    requires DirOk(bytes) && k < Count(bytes) && EntryAt(bytes, k).inum != 0
    ensures EntryAt(bytes, k).name in DirMap(bytes) && DirMap(bytes)[EntryAt(bytes, k).name] == EntryAt(bytes, k).inum
  {
    EntryBinds(bytes, Count(bytes), k);
    hide EntryAt;
  }
}
