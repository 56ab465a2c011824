/** Runs of the server, from a freshly formatted disk, that end where a promise fails: the
    inputs behind Invariant.TruncIsSoundIff, Invariant.DropLeaksIff and
    Invariant.GetPanicsIff. */
module Examples {
  import opened Layout
  import opened BlockTree
  import opened BlockStore
  import opened Invariant
  import opened Space
  import opened Directory
  import opened DirectoryOps
  import opened FileSystem
  import opened Path
  import opened References
  import opened Namei
  import opened Links
  import opened OpenFiles
  import opened Server
  import opened Image
  import Sysfile

  const LETTERA: Byte := 97
  const LETTERB: Byte := 98
  const NEWFILE: int := 0x42       // O_CREAT and O_RDWR
  const EMPTIED: int := 0x202      // O_TRUNC and O_RDWR
  const CREATED: File := File(T_FILE, 0, 0, 1, [])

  lemma Flags()
    ensures Flag(NEWFILE, O_CREAT) && Flag(NEWFILE, O_RDWR) && !Flag(NEWFILE, O_WRONLY) && !Flag(NEWFILE, O_TRUNC)
    ensures Flag(EMPTIED, O_TRUNC) && Flag(EMPTIED, O_RDWR) && !Flag(EMPTIED, O_CREAT)
  {
  }

  /** "/x" is the name "x" in the root. */
  lemma OneElement(x: Byte, c: nat)
    requires x != 0 && x != SLASH
    ensures NoNul([SLASH, x]) && Elements([SLASH, x]) == [[x]] && StartOf([SLASH, x], c) == ROOTINO
  {
    var p := [SLASH, x];
    assert p[1..] == [x];
    assert DropSlashes(p) == [x] by { assert DropSlashes([x]) == [x]; }
    assert [x][1..] == [] && ElementLength([x]) == 1 + ElementLength([]) == 1;
    assert [x][..1] == [x] && [x][1..] == [];
  }

  // ---------- what there is room for ----------

  function Used(files: seq<File>): set<nat> { set i | 0 <= i < |files| && files[i] != Free }

  lemma SomeInodeFree(files: seq<File>)
    requires |Used(files)| + 1 < |files|
    ensures exists j :: 1 <= j < |files| && files[j] == Free
  {
    if forall j :: 1 <= j < |files| ==> files[j] != Free {
      BelowFacts(|files|);
      hide Below;
      SubsetCard(Below(|files|) - {0}, Used(files));
    }
  }

  lemma {:induction false} NamesOfFull(bytes: seq<Byte>, n: nat)
    requires DirOk(bytes) && NoEmptyEntry(bytes) && n <= Count(bytes)
    ensures |MapOf(bytes, n)| == n
  {
    hide EntryAt;
    if n > 0 {
      NamesOfFull(bytes, n - 1);
      var e := EntryAt(bytes, n - 1);
      if e.name in MapOf(bytes, n - 1) { var k := BoundByEntry(bytes, n - 1, e.name); }
    }
  }

  /** A directory with more entries than names has an empty one. */
  lemma SomeEntryEmpty(bytes: seq<Byte>)
    requires DirOk(bytes) && |DirMap(bytes)| < Count(bytes)
    ensures !NoEmptyEntry(bytes)
  {
    hide EntryAt, MapOf;
    if NoEmptyEntry(bytes) { NamesOfFull(bytes, Count(bytes)); }
  }

  lemma RootIsDirOk(s: Sys)
    requires SysOk(s)
    ensures DirOk(BytesOf(s.st.files, ROOTINO)) && |BytesOf(s.st.files, ROOTINO)| % RECSIZE == 0
  {
    hide Inv, TablesOk, LinksOk, EntryAt;
  }

  /** Calls on a name in the root find the entries they need. */
  lemma RoomAtRoot(s: Sys, n: Name)
    requires SysOk(s)
    requires |s.st.slots| < NINODE || (n in RootMap(s.st.files) && RootMap(s.st.files)[n] in s.st.slots)
    ensures OpenRoom(s.st.slots.Keys, s.st.files, ROOTINO, [n], true)
      && OpenRoom(s.st.slots.Keys, s.st.files, ROOTINO, [n], false)
    ensures Sysfile.UnlinkRoom(s.st.slots.Keys, s.st.files, ROOTINO, [n])
  {
    hide SysOk, RootMap, WalkRoom;
    RootOfSys(s);
    WalkAtRoot(s.st.slots.Keys, s.st.files, n);
    hide ResolveParent;
  }

  lemma WalkAtRoot(keys: set<nat>, files: seq<File>, n: Name)
    requires ROOTINO in keys && IsDirFile(files, ROOTINO)
    requires |keys| < NINODE || (n in RootMap(files) && RootMap(files)[n] in keys)
    ensures WalkRoom(keys, files, ROOTINO, [n], true) && WalkRoom(keys, files, ROOTINO, [n], false)
  {
    hide DirMap;
    assert keys + {ROOTINO} == keys;
    assert StepRoom(keys, files, ROOTINO, n);
    assert WalkRoom(keys, files, LookupIn(files, ROOTINO, n), [], false);
    assert [n][1..] == [];
  }

  // ---------- what the calls of these runs do ----------

  /** What the runs below keep track of. */
  datatype Sight = Sight(names: map<Name, nat>, size: nat, used: set<nat>, keys: set<nat>, ofile: seq<nat>)

  function Seen(s: Sys): Sight
  {
    Sight(RootMap(s.st.files), |BytesOf(s.st.files, ROOTINO)|, Used(s.st.files), s.st.slots.Keys, s.ofile)
  }

  /** There is an empty entry in the root, a free inode, and descriptor 3. */
  ghost predicate CanCreate(v: Sight, files: nat)
  {
    |v.names| < v.size / RECSIZE && |v.used| + 1 < files && |v.ofile| == NOFILE && v.ofile[3] == NFILE
  }

  lemma EntryTaken(bytes: seq<Byte>, bytes': seq<Byte>, n: Name, i: nat)
    requires FirstEmptyTaken(bytes, bytes', n, i) && !NoEmptyEntry(bytes)
    ensures |bytes'| == |bytes|
  {
    hide EntryAt;
  }

  /** open creates the file, as descriptor 3. */
  lemma OpenCreates(s: Sys, s': Sys, st1: State, n: Name, omode: int, r: int, f: nat, ip: nat, t: nat)
    requires SysOk(s) && CanCreate(Seen(s), |s.st.files|) && n !in RootMap(s.st.files)
    requires Flag(omode, O_CREAT) && !Flag(omode, O_TRUNC) && OpenOk(s, s', st1, ROOTINO, [n], omode, r, f, ip, t)
    ensures r == 3 && Sysfile.CreateDone(s.st, st1, n, CREATED, ip, t) && s'.st == st1 && st1.marked == s.st.marked
    ensures f < NFILE && |s.ftable| == |s.held| == NFILE
    ensures s' == s.(st := st1, ofile := s.ofile[3 := f], held := s.held[f := t],
                     ftable := s.ftable[f := NewEntry(s.ftable[f], omode, T_FILE, 0, ip)])
  {
    hide SysOk, Sysfile.CreateOk, OpenedOk, Sysfile.CreateDone, Seen;
    SeenNames(s);
    CreateSucceeds(s, st1, n, ip, t);
    DoneFile(s, st1, n, ip, t);
    CreatedIsOpened(s, s', st1, omode, r, f, ip, t);
  }

  lemma CreateSucceeds(s: Sys, st1: State, n: Name, ip: nat, t: nat)
    requires SysOk(s) && CanCreate(Seen(s), |s.st.files|) && n !in RootMap(s.st.files)
    requires Sysfile.CreateOk(s.st, st1, ROOTINO, [n], CREATED, ip, t)
    ensures ip != NINODE && Sysfile.CreateDone(s.st, st1, n, CREATED, ip, t) && st1.marked == s.st.marked
  {
    RootOfSys(s);
    RootIsDirOk(s);
    hide SysOk, DirOk, DirMap, NoEmptyEntry, Holding, Used, FirstEmptyTaken, Sysfile.CreateDone, FullDisk;
    SomeInodeFree(s.st.files);
    SomeEntryEmpty(BytesOf(s.st.files, ROOTINO)) by { RootMapIs(s.st.files); }
    assert ResolveParent(s.st.files, ROOTINO, [n]) == ROOTINO;
    if ip < NINODE { DoneTakesNothing(s.st, st1, n, ip, t); }
  }

  lemma RootMapIs(files: seq<File>)
    ensures RootMap(files) == DirMap(BytesOf(files, ROOTINO))
  {
  }

  lemma DoneTakesNothing(st: State, st1: State, n: Name, ip: nat, t: nat)
    requires Sysfile.CreateDone(st, st1, n, CREATED, ip, t) && !NoEmptyEntry(BytesOf(st.files, ROOTINO))
    ensures st1.marked == st.marked && |BytesOf(st1.files, ROOTINO)| == |BytesOf(st.files, ROOTINO)|
  {
    hide Holding, NsOk, DirMap, FirstEmptyTaken, NoEmptyEntry;
    EntryTaken(BytesOf(st.files, ROOTINO), BytesOf(st1.files, ROOTINO), n, t);
  }

  lemma DoneFile(s: Sys, st1: State, n: Name, ip: nat, t: nat)
    requires SysOk(s) && Sysfile.CreateDone(s.st, st1, n, CREATED, ip, t)
    ensures t < |st1.files| && st1.files[t] == CREATED && t in st1.slots && st1.slots[t] == ip
  {
    RootOfSys(s);
    hide SysOk, Holding, NsOk, RootMap, FirstEmptyTaken;
  }

  lemma CreatedIsOpened(s: Sys, s': Sys, st1: State, omode: int, r: int, f: nat, ip: nat, t: nat)
    requires SysOk(s) && |s.ofile| == NOFILE && s.ofile[3] == NFILE && !Flag(omode, O_TRUNC)
    requires OpenedOk(s, s', st1, t, omode, r, f)
    requires t < |st1.files| && st1.files[t] == CREATED && t in st1.slots && st1.slots[t] == ip
    ensures r == 3 && f < NFILE && |s.ftable| == |s.held| == NFILE && s'.st == st1
    ensures s' == s.(st := st1, ofile := s.ofile[3 := f], held := s.held[f := t],
                     ftable := s.ftable[f := NewEntry(s.ftable[f], omode, T_FILE, 0, ip)])
  {
    hide SysOk, WithTrunc, NotOpened, NewEntry;
    DescriptorFacts(s, 3);
    assert s.loose + multiset{t} - multiset{t} == s.loose;
  }

  lemma CreateSeen(s: Sys, s': Sys, n: Name, ip: nat, t: nat, f: nat)
    requires SysOk(s) && CanCreate(Seen(s), |s.st.files|) && Sysfile.CreateDone(s.st, s'.st, n, CREATED, ip, t)
    requires s'.ofile == s.ofile[3 := f]
    ensures t !in Seen(s).keys && t !in Seen(s).used && t != ROOTINO && |s'.st.files| == |s.st.files|
    ensures var v := Seen(s);
      Seen(s') == Sight(v.names[n := t], v.size, v.used + {t}, v.keys + {t}, v.ofile[3 := f])
    ensures RefOf(s'.st.itable, s'.st.slots, t) == 1 && t < |s'.st.files| && s'.st.files[t] == CREATED
  {
    hide SysOk, DirOk, DirMap, NoEmptyEntry, Sysfile.CreateDone, Used, RootMap, RefOf;
    RootIsDirOk(s);
    RootMapIs(s.st.files);
    SomeEntryEmpty(BytesOf(s.st.files, ROOTINO));
    DoneTakesNothing(s.st, s'.st, n, ip, t);
    CreatedFiles(s, s'.st, n, ip, t);
    CreatedKeys(s, s'.st, n, ip, t);
  }

  lemma CreatedFiles(s: Sys, st1: State, n: Name, ip: nat, t: nat)
    requires SysOk(s) && Sysfile.CreateDone(s.st, st1, n, CREATED, ip, t)
    ensures RootMap(st1.files) == RootMap(s.st.files)[n := t] && t != ROOTINO
    ensures Used(st1.files) == Used(s.st.files) + {t} && t !in Used(s.st.files)
    ensures |st1.files| == |s.st.files| && t < |st1.files| && st1.files[t] == CREATED
  {
    RootOfSys(s);
    hide SysOk, Holding, NsOk, DirMap, FirstEmptyTaken, RootMap, Used;
    UsedAdded(s.st.files, BytesOf(st1.files, ROOTINO), t);
  }

  lemma UsedAdded(files: seq<File>, bytes: seq<Byte>, t: nat)
    requires t < |files| && t != ROOTINO && files[t] == Free && IsDirFile(files, ROOTINO)
    ensures Used(Relinked(files, bytes, t, CREATED)) == Used(files) + {t} && t !in Used(files)
  {
    var files' := Relinked(files, bytes, t, CREATED);
    forall i | 0 <= i < |files| ensures files'[i] != Free <==> files[i] != Free || i == t { }
  }

  lemma DoneHolds(st: State, st1: State, n: Name, ip: nat, t: nat)
    requires Sysfile.CreateDone(st, st1, n, CREATED, ip, t)
    ensures Holding(st, st1, multiset{t}) && t < |st.files| && st.files[t] == Free
  {
    hide Holding, NsOk, DirMap, FirstEmptyTaken;
  }

  lemma CreatedKeys(s: Sys, st1: State, n: Name, ip: nat, t: nat)
    requires SysOk(s) && Sysfile.CreateDone(s.st, st1, n, CREATED, ip, t)
    ensures st1.slots.Keys == s.st.slots.Keys + {t} && t !in s.st.slots && RefOf(st1.itable, st1.slots, t) == 1
  {
    hide SysOk, Sysfile.CreateDone, Inv, TablesOk;
    SysGives(s);
    DoneHolds(s.st, st1, n, ip, t);
    Sysfile.FreeNotReferenced(s.st, t);
    assert RefOf(st1.itable, st1.slots, t) == RefOf(s.st.itable, s.st.slots, t) + multiset{t}[t];
    hide Holding;
    HoldingKeys(s.st, st1, multiset{t});
    assert Distinct(multiset{t}) == {t};
  }

  /** open with O_CREAT of a file that exists forgets a reference to it. */
  lemma OpenForgets(s: Sys, s': Sys, st1: State, n: Name, omode: int, r: int, f: nat, ip: nat, t: nat)
    requires SysOk(s) && n in RootMap(s.st.files) && Flag(omode, O_CREAT)
    requires OpenOk(s, s', st1, ROOTINO, [n], omode, r, f, ip, t)
    ensures r == -1 && s'.held == s.held && s'.ftable == s.ftable && s'.st.files == s.st.files
    ensures var i := RootMap(s.st.files)[n];
      Seen(s') == Seen(s).(keys := Seen(s).keys + {i}) && s'.loose == s.loose + multiset{i}
  {
    hide TablesOk, NsOk, DirMap, RootMap, Inv, OpenedOk, Flag;
    RootOfSys(s);
    var i := RootMap(s.st.files)[n];
    assert ResolveParent(s.st.files, ROOTINO, [n]) == ROOTINO;
    hide Holding;
    HoldingKeys(s.st, st1, multiset{i});
    assert Distinct(multiset{i}) == {i};
  }

  /** close of descriptor 3, the only one of its file, which has a name. */
  lemma CloseSeen(s: Sys, s': Sys, f: nat, i: nat, r: int)
    requires SysOk(s) && |s.ofile| == NOFILE && s.ofile[3] == f < NFILE && CloseOk(s, s', 3, r)
    requires f < |s.ftable| && s.ftable[f].ref == 1 && f < |s.held| && s.held[f] == i && Linked(s.st.files, i)
    ensures s'.st == AfterPut(s.st, i) && s'.st.files == s.st.files && s'.loose == s.loose
    ensures var (v, alone) := (Seen(s), RefOf(s.st.itable, s.st.slots, i) == 1);
      Seen(s') == v.(keys := if alone then v.keys - {i} else v.keys, ofile := v.ofile[3 := NFILE])
  {
    assert Inv(s.st, 0) by { hide Inv, NsOk, TablesOk; }
    hide Inv, SysOk, RootMap, AfterPut, BlocksOf, RefOf, RefsMoved, Used;
    if LastPut(s.st, i) { LastPutUnlinked(s.st, i); }
  }

  lemma ParentOfOne(files: seq<File>, n: Name)
    requires IsDirFile(files, ROOTINO)
    ensures ResolveParent(files, ROOTINO, [n]) == ROOTINO
  {
  }

  /** unlink of a file that somebody refers to. */
  lemma UnlinkSeen(s: Sys, s': Sys, n: Name, r: int)
    requires SysOk(s) && n in RootMap(s.st.files) && n != DOT && n != DOTDOT && RootMap(s.st.files)[n] in s.st.slots
    requires s' == s.(st := s'.st) && Sysfile.UnlinkOk(s.st, s'.st, ROOTINO, [n], r)
    ensures Seen(s') == Seen(s).(names := Seen(s).names - {n}) && |s'.st.files| == |s.st.files|
  {
    hide SysOk, RootMap, NsOk, Sysfile.UnlinkDone, Inv, TablesOk, Used, ResolveParent, Holding;
    RootOfSys(s);
    SysGives(s);
    ParentOfOne(s.st.files, n);
    UnlinkedFiles(s.st, s'.st, n);
    UnlinkHolds(s.st, s'.st, n);
    HoldingKeys(s.st, s'.st, multiset{});
    assert Distinct(multiset{}) == {};
  }

  lemma UnlinkHolds(st: State, st': State, n: Name)
    requires Sysfile.UnlinkDone(st, st', n)
    ensures Holding(st, st', multiset{})
  {
    hide Holding, NsOk, RootMap;
  }

  lemma UnlinkedFiles(st: State, st': State, n: Name)
    requires Sysfile.UnlinkDone(st, st', n) && RootMap(st.files)[n] in st.slots && IsDirFile(st.files, ROOTINO)
    ensures |st'.files| == |st.files| && Used(st'.files) == Used(st.files)
      && RootMap(st'.files) == RootMap(st.files) - {n}
    ensures |BytesOf(st'.files, ROOTINO)| == |BytesOf(st.files, ROOTINO)|
  {
    hide Holding, NsOk, RootMap;
    var t := RootMap(st.files)[n];
    assert t < |st'.files| && (st'.files[t] != Free <==> st.files[t] != Free);
    forall i | 0 <= i < |st.files| ensures st'.files[i] != Free <==> st.files[i] != Free { }
  }

  // ---------- a byte written to a new file ----------

  lemma OneByteSlots(off: nat)
    ensures |SlotsIn(off, 1)| <= 3 && SlotsIn(off, 1) == SlotOf(off / BSIZE).Path()
  {
    hide SlotOf;
    assert (off + 1 - 1) / BSIZE + 1 == off / BSIZE + 1;
    assert BlockSlots(off / BSIZE, off / BSIZE) == {};
    PathIsShort(SlotOf(off / BSIZE));
  }

  lemma FewWanted(st: State, i: nat, off: nat)
    ensures |Wanted(st, i, SlotsIn(off, 1))| <= 3
  {
    hide SlotsIn, Ptr;
    OneByteSlots(off);
    SlotSubset(Wanted(st, i, SlotsIn(off, 1)), SlotsIn(off, 1));
  }

  /** Descriptor 3 is that of file `t`, open for reading and writing. */
  ghost predicate OpenAs3(s: Sys, f: nat, t: nat)
  {
    && |s.ofile| == NOFILE && s.ofile[3] == f < NFILE && |s.ftable| == |s.held| == NFILE && s.held[f] == t
    && s.ftable[f].typ == FdInode && s.ftable[f].readable && s.ftable[f].writable
    && t < |s.st.files| && s.st.files[t].File?
  }

  /** The seek in pread and pwrite. */
  lemma SeekedTo(s: Sys, f: nat, t: nat, off: nat)
    requires OpenAs3(s, f, t) && off < MAXBYTES
    ensures Behind(s, 3) == f && CanSeek(s, f, SEEK_SET) && ToUint(off) == off
    ensures Seeked(s, f, off, SEEK_SET) == Moved(s, f, off)
  {
  }

  /** pwrite of one byte, when three blocks are free. */
  lemma OneByteWritten(s: Sys, s': Sys, f: nat, t: nat, b: Byte, off: nat, r: int, moved: nat)
    requires SysOk(s) && SysOk(s') && OpenAs3(s, f, t) && off < MAXBYTES && |Unmarked(s.st)| >= 3
    requires PWriteOk(s, s', 3, [b], 1, off, r, moved)
    ensures r == 1 && OpenAs3(s', f, t) && Filled(s.st, s'.st, t, off, 1, 1)
    ensures s'.st.files == s.st.files[t := s.st.files[t].(bytes := Splice(s.st.files[t].bytes, off, [b]))]
    ensures s' == s.(st := s'.st, ftable := s.ftable[f := s.ftable[f].(off := off + 1)])
  {
    hide SysOk, PWriteOk, Inv, TablesOk, Wanted, SlotsIn, Unmarked, Splice, WroteOk, OpenAs3;
    SysGives(s);
    SysGives(s');
    WroteOneByte(s, s', f, t, b, off, r, moved);
    FewWanted(s.st, t, off);
    WroteFitsIff(Moved(s, f, off), s', f, [b], r, moved);
    WroteItAll(s, s', f, t, b, off, r, moved);
  }

  lemma WroteOneByte(s: Sys, s': Sys, f: nat, t: nat, b: Byte, off: nat, r: int, moved: nat)
    requires OpenAs3(s, f, t) && off < MAXBYTES && PWriteOk(s, s', 3, [b], 1, off, r, moved)
    ensures f < |s.ftable| && f < |s.held| && s.held[f] == t && !Refused(off, 1)
      && Moved(s, f, off).ftable[f].off == off
    ensures WroteOk(Moved(s, f, off), s', f, [b], r, moved)
  {
    hide WroteOk, Seeked;
    SeekedTo(s, f, t, off);
    assert [b][..1] == [b];
  }

  lemma WroteItAll(s: Sys, s': Sys, f: nat, t: nat, b: Byte, off: nat, r: int, moved: nat)
    requires OpenAs3(s, f, t) && off < MAXBYTES && r == 1 && moved == 1
      && WroteOk(Moved(s, f, off), s', f, [b], r, moved)
    ensures OpenAs3(s', f, t) && Filled(s.st, s'.st, t, off, 1, 1)
    ensures s'.st.files == s.st.files[t := s.st.files[t].(bytes := Splice(s.st.files[t].bytes, off, [b]))]
    ensures s' == s.(st := s'.st, ftable := s.ftable[f := s.ftable[f].(off := off + 1)])
  {
    hide Filled, AtHole, FullDisk, Splice, NoLeak;
    assert [b][..1] == [b];
  }

  /** pread of one byte, when three blocks are free. */
  lemma OneByteRead(s: Sys, s': Sys, f: nat, t: nat, off: nat, r: int, dst: seq<Byte>)
    requires SysOk(s) && OpenAs3(s, f, t) && off < MAXBYTES && off < |s.st.files[t].bytes| && |Unmarked(s.st)| >= 3
    requires PReadOk(s, s', 3, 1, off, r, dst)
    ensures |dst| == 1 && ReadOk(s.st, s'.st, t, off, 1, dst)
    ensures s' == s.(st := s'.st, ftable := s.ftable[f := s.ftable[f].(off := off + 1)])
  {
    hide SysOk, Inv, TablesOk, Wanted, SlotsIn, Unmarked, ReadOk;
    SysGives(s);
    ReadOneByte(s, s', f, t, off, r, dst);
    FewWanted(s.st, t, off);
    ReadFitsIff(s.st, s'.st, t, off, 1, dst);
  }

  lemma ReadOneByte(s: Sys, s': Sys, f: nat, t: nat, off: nat, r: int, dst: seq<Byte>)
    requires OpenAs3(s, f, t) && off < MAXBYTES && off < |s.st.files[t].bytes| && PReadOk(s, s', 3, 1, off, r, dst)
    ensures ReadCount(|s.st.files[t].bytes|, off, 1) == 1
    ensures ReadOk(s.st, s'.st, t, off, 1, dst)
    ensures s' == s.(st := s'.st, ftable := s.ftable[f := s.ftable[f].(off := ToUint(off + |dst|))])
  {
    hide ReadOk, Seeked;
    SeekedTo(s, f, t, off);
  }

  // ---------- truncating a large file ----------

  const BIG: nat := 273408       // the first byte that needs the double-indirect block
  const DOTS: map<Name, nat> := map[DOT := ROOTINO, DOTDOT := ROOTINO]

  /** A server that has just been started. */
  method Start(disk: seq<Block>) returns (server: Server)
    requires |disk| == FSSIZE
    ensures fresh(server) && fresh(server.fs) && fresh(server.fs.store) && server.Valid() && server.loose == multiset{}
    ensures server.fs.store.geo == Geo() && server.fs.store.marked == Below(USED) && |server.fs.files| == NINODES
    ensures Tidy(server.fs.St())
    ensures Seen(server.S()) == Sight(DOTS, BSIZE, {ROOTINO}, {ROOTINO}, server.ofile)
    ensures server.ofile == NoFds()
  {
    hide Views, SysOk, Formatted, RootBlock, RootMap, Used, Below;
    server := Boot(disk);
    FormattedNs();
    FormattedMarks();
    FormattedUsed();
  }

  lemma FormattedMarks()
    ensures Formatted().marked == Below(USED)
  {
    hide Below, RootBlock;
  }

  lemma FormattedUsed()
    ensures Used(Formatted().files) == {ROOTINO}
  {
    hide RootMap, Formatted, RootBlock;
    FormattedNs();
  }

  lemma DataBlocks(store: Store)
    requires store.Valid()
    ensures forall b: nat :: b in store.data <==> store.geo.nmeta <= b < store.geo.size
  {
  }

  lemma ManyFree(store: Store, st: State)
    requires store.Valid() && store.geo == Geo() && store.marked == Below(USED)
    requires st.data == store.data && st.marked == store.marked
    ensures |Unmarked(st)| >= 6
  {
    hide Views, Below;
    Numbers();
    DataBlocks(store);
    BelowFacts(USED);
    var some: set<nat> := {51, 52, 53, 54, 55, 56};
    forall b | b in some ensures b in Unmarked(st) { assert b in store.data && b !in store.marked; }
    hide Unmarked;
    SubsetCard(some, Unmarked(st));
  }

  /** Where the first byte of "big" lies. */
  lemma BigNeedsDouble(data: Disk, addrs: seq<Uint>)
    requires 0 !in data && |addrs| == NADDR && Ptr(data, addrs, SlotOf(BIG / BSIZE)) != 0
    ensures addrs[NDIRECT + 1] != 0
  {
    assert SlotOf(BIG / BSIZE) == Leaf(0, 0);
    WayIsMapped(data, addrs, Leaf(0, 0));
    assert Ptr(data, addrs, Root(NDIRECT + 1)) == addrs[NDIRECT + 1];
  }

  lemma FilledIsMapped(st: State, st': State, t: nat, off: nat)
    requires Filled(st, st', t, off, 1, 1)
    ensures t < |st'.live| && Ptr(st'.data, st'.live[t].addrs, SlotOf(off / BSIZE)) != 0
  {
    hide Hung, SlotsIn, Ptr, SlotOf;
    assert SlotOf(off / BSIZE) == SlotOf(off / BSIZE);
  }

  /** A file with a name that has just been created and written to. */
  lemma OpenTruncates(s: Sys, s': Sys, st1: State, n: Name, omode: int, r: int, f: nat, ip: nat, t: nat)
    requires SysOk(s) && n in RootMap(s.st.files) && !Flag(omode, O_CREAT) && |s.ofile| == NOFILE && s.ofile[4] == NFILE
    requires var i := RootMap(s.st.files)[n]; i < |s.st.files| && s.st.files[i].File? && s.st.files[i].typ == T_FILE
    requires OpenOk(s, s', st1, ROOTINO, [n], omode, r, f, ip, t)
    ensures r >= 0 && t == RootMap(s.st.files)[n]
  {
    hide SysOk, RootMap, Resolve, WithTrunc, TreeOk, Inv, Holding, NotOpened, Opened, Cached, NewEntry, Flag, Forgotten,
         Sysfile.CreateOk, IsDirFile;
    RootOfSys(s);
    BoundNonZero(s, n);
    ResolvesTo(s.st.files, n);
    assert st1.files == s.st.files;
  }

  lemma BoundNonZero(s: Sys, n: Name)
    requires SysOk(s) && n in RootMap(s.st.files)
    ensures RootMap(s.st.files)[n] != 0
  {
    hide Inv, TablesOk, RootMap, IsDir;
    assert n in RootMap(s.st.files);
  }

  lemma ResolvesTo(files: seq<File>, n: Name)
    requires IsDirFile(files, ROOTINO) && n in RootMap(files) && RootMap(files)[n] != 0
    ensures Resolve(files, ROOTINO, [n]) == RootMap(files)[n]
  {
    hide DirMap;
    assert [n][1..] == [];
    assert Resolve(files, RootMap(files)[n], []) == RootMap(files)[n];
  }

  /** What a file freshly created through descriptor 3 is like. */
  lemma NewIsOpen(s: Sys, s': Sys, st1: State, n: Name, omode: int, f: nat, ip: nat, t: nat)
    requires |s.ofile| == NOFILE && |s.ftable| == |s.held| == NFILE && f < NFILE && Flag(omode, O_RDWR)
      && !Flag(omode, O_WRONLY)
    requires s' == s.(st := st1, ofile := s.ofile[3 := f], held := s.held[f := t],
                      ftable := s.ftable[f := NewEntry(s.ftable[f], omode, T_FILE, 0, ip)])
    requires t < |st1.files| && st1.files[t] == CREATED
    ensures OpenAs3(s', f, t) && NoDirectoryWritten(s', 3) && s'.ftable[f].ref == 1
  {
  }

  lemma RootMapKept(files: seq<File>, t: nat, bytes: seq<Byte>)
    requires t < |files| && t != ROOTINO && files[t].File?
    ensures RootMap(files[t := files[t].(bytes := bytes)]) == RootMap(files)
  {
    hide DirMap;
  }

  lemma NothingLoose(s: Sys)
    requires SysOk(s) && s.loose == multiset{}
    ensures |s.st.slots| < NINODE
  {
    assert Distinct(multiset{}) == {};
    hide SysOk;
    TableHasRoom(s);
  }

  /** Inode `t` is the new file "a", open as descriptor 3, on a disk with free blocks. */
  ghost predicate HasFile(s: Sys, f: nat, t: nat)
  {
    && OpenAs3(s, f, t) && NoDirectoryWritten(s, 3) && s.ofile[4] == NFILE && s.ftable[f].ref == 1
    && t != ROOTINO && t != 0 && s.st.files[t] == CREATED && t < |s.st.live| && s.st.live[t].addrs == NOADDRS
    && [LETTERA] in RootMap(s.st.files) && RootMap(s.st.files)[[LETTERA]] == t
    && s.loose == multiset{} && RefOf(s.st.itable, s.st.slots, t) == 1 && |Unmarked(s.st)| >= 6
  }

  /** Format, and create "a". */
  method WithFile(disk: seq<Block>) returns (server: Server, ghost f: nat, ghost t: nat)
    requires |disk| == FSSIZE
    ensures fresh(server) && fresh(server.fs) && fresh(server.fs.store) && server.Valid()
    ensures HasFile(server.S(), f, t)
  {
    Flags();
    hide Flag;
    hide Views, SysOk, Elements, OpenOk, OpenRoom, Seen, Below, RootMap, HasFile, Unmarked;
    server := Start(disk);
    ghost var s0 := server.S();
    OneElement(LETTERA, server.c);
    NothingLoose(s0);
    RoomAtRoot(s0, [LETTERA]);
    var r, ip, dangles;
    ghost var st1;
    r, ip, dangles, f, t, st1 := server.Open([SLASH, LETTERA], NEWFILE);
    MarksKept(s0, server.S(), st1, r, f, ip, t);
    ManyFree(server.fs.store, server.fs.St());
    ItHasFile(s0, server.S(), st1, r, f, ip, t);
  }

  /** The server as Start leaves it, up to what is free. */
  ghost predicate Started0(s: Sys)
  {
    && SysOk(s) && Seen(s) == Sight(DOTS, BSIZE, {ROOTINO}, {ROOTINO}, s.ofile) && |s.st.files| == NINODES
    && s.loose == multiset{}
    && |s.ofile| == NOFILE && s.ofile[3] == NFILE && s.ofile[4] == NFILE
  }

  lemma MarksKept(s: Sys, s': Sys, st1: State, r: int, f: nat, ip: nat, t: nat)
    requires Started0(s) && OpenOk(s, s', st1, ROOTINO, [[LETTERA]], NEWFILE, r, f, ip, t)
    ensures s'.st.marked == s.st.marked
  {
    Flags();
    hide Flag;
    hide SysOk, OpenOk, RootMap, Sysfile.CreateDone;
    FirstCreate(s);
    OpenCreates(s, s', st1, [LETTERA], NEWFILE, r, f, ip, t);
  }

  lemma ItHasFile(s: Sys, s': Sys, st1: State, r: int, f: nat, ip: nat, t: nat)
    requires Started0(s) && OpenOk(s, s', st1, ROOTINO, [[LETTERA]], NEWFILE, r, f, ip, t)
    requires |Unmarked(s'.st)| >= 6
    ensures HasFile(s', f, t)
  {
    Flags();
    hide Flag;
    hide SysOk, OpenOk, RootMap, Sysfile.CreateDone, Unmarked, Seen, RefOf, OpenAs3, NoDirectoryWritten, NewEntry;
    var n: Name := [LETTERA];
    FirstCreate(s);
    OpenCreates(s, s', st1, n, NEWFILE, r, f, ip, t);
    CreateSeen(s, s', n, ip, t, f);
    NewIsOpen(s, s', st1, n, NEWFILE, f, ip, t);
    CreatedLive(s.st, st1, n, ip, t);
    SeenNames(s);
    SeenNames(s');
  }

  lemma CreatedLive(st: State, st1: State, n: Name, ip: nat, t: nat)
    requires Sysfile.CreateDone(st, st1, n, CREATED, ip, t)
    ensures 0 < t < |st1.live| && st1.live[t].addrs == NOADDRS
  {
    hide Holding, NsOk, DirMap, FirstEmptyTaken;
  }

  lemma SeenNames(s: Sys)
    ensures Seen(s).names == RootMap(s.st.files) && Seen(s).ofile == s.ofile && Seen(s).keys == s.st.slots.Keys
    ensures Seen(s).size == |BytesOf(s.st.files, ROOTINO)|
  {
    hide RootMap;
  }

  lemma FileIsOpen(s: Sys, f: nat, t: nat)
    requires HasFile(s, f, t)
    ensures OpenAs3(s, f, t) && NoDirectoryWritten(s, 3) && |Unmarked(s.st)| >= 6
  {
    hide OpenAs3, NoDirectoryWritten, Unmarked, RootMap;
  }

  /** Write one byte far out in "a", and open it again to truncate it: the inode keeps the
      number of a block that is free. */
  method TruncateBig(disk: seq<Block>) returns (server: Server, ghost t: nat)
    requires |disk| == FSSIZE
    ensures !server.Valid()
    ensures t < |server.fs.live| && server.fs.live[t].typ == T_FILE
    ensures server.fs.live[t].addrs[NDIRECT + 1] != 0 && server.fs.live[t].addrs[NDIRECT + 1] !in server.fs.store.marked
  {
    Flags();
    hide Flag;
    hide Views, SysOk, Elements, OpenOk, PWriteOk, OpenRoom, NoDirectoryWritten, OpenAs3, HasFile, RootMap, Dangles,
         Unmarked, BigFile;
    ghost var f, st1, t1, moved;
    server, f, t1 := WithFile(disk);
    var n: Name := [LETTERA];
    ghost var s1 := server.S();
    FileIsOpen(s1, f, t1);
    var r;
    r, moved := server.PWrite(3, [1], 1, BIG);
    ghost var s2 := server.S();
    AfterBig(s1, s2, f, t1, r, moved);
    OneElement(LETTERA, server.c);
    BigFacts(s2, t1);
    RoomAtRoot(s2, n);
    var ip, dangles;
    r, ip, dangles, f, t, st1 := server.Open([SLASH, LETTERA], EMPTIED);
    BigDangles(s2, server.S(), st1, r, f, ip, t, t1);
  }

  lemma FirstCreate(s: Sys)
    requires Seen(s) == Sight(DOTS, BSIZE, {ROOTINO}, {ROOTINO}, s.ofile) && |s.st.files| == NINODES
    requires |s.ofile| == NOFILE && s.ofile[3] == NFILE
    ensures CanCreate(Seen(s), |s.st.files|) && [LETTERA] !in RootMap(s.st.files) && [LETTERB] !in RootMap(s.st.files)
  {
    assert DOTS.Keys == {DOT, DOTDOT};
  }

  /** File "a" has a double-indirect block, and there is a free descriptor. */
  ghost predicate BigFile(s: Sys, t: nat)
  {
    && [LETTERA] in RootMap(s.st.files) && RootMap(s.st.files)[[LETTERA]] == t
    && t < |s.st.live| && t < |s.st.files| && s.st.files[t].File? && s.st.files[t].typ == T_FILE
    && s.st.live[t].addrs[NDIRECT + 1] != 0 && |s.ofile| == NOFILE && s.ofile[4] == NFILE && |s.st.slots| < NINODE
  }

  lemma BigFacts(s: Sys, t: nat)
    requires BigFile(s, t)
    ensures |s.st.slots| < NINODE
  {
    hide RootMap;
  }

  /** After the write the file has a double-indirect block. */
  lemma AfterBig(s1: Sys, s2: Sys, f: nat, t: nat, r: int, moved: nat)
    requires SysOk(s1) && SysOk(s2) && HasFile(s1, f, t) && PWriteOk(s1, s2, 3, [1], 1, BIG, r, moved)
    ensures BigFile(s2, t)
  {
    hide SysOk, RootMap, Filled, HasFile, PWriteOk, Inv, TablesOk, Ptr, SlotOf, OpenAs3;
    WroteFar(s1, s2, f, t, BIG, r, moved);
    SysGives(s2);
    FilledIsMapped(s1.st, s2.st, t, BIG);
    NoZeroBlock(s2.st, 0);
    BigNeedsDouble(s2.st.data, s2.st.live[t].addrs);
  }

  /** Opening it to truncate it dangles. */
  lemma BigDangles(s: Sys, s': Sys, st1: State, r: int, f: nat, ip: nat, t: nat, t1: nat)
    requires SysOk(s) && BigFile(s, t1)
    requires OpenOk(s, s', st1, ROOTINO, [[LETTERA]], EMPTIED, r, f, ip, t)
    ensures r >= 0 && t == t1 && Dangles(s.st, t, EMPTIED)
    ensures t < |s'.st.live| && s'.st.live[t].typ == T_FILE
    ensures s'.st.live[t].addrs[NDIRECT + 1] != 0 && s'.st.live[t].addrs[NDIRECT + 1] !in s'.st.marked
  {
    Flags();
    hide Flag;
    hide SysOk, OpenOk, RootMap;
    OpenTruncates(s, s', st1, [LETTERA], EMPTIED, r, f, ip, t);
    DanglesNow(s, s', st1, [LETTERA], r, f, ip, t);
  }

  /** The byte is in the new file, which still has its name and its descriptor. */
  ghost predicate Wrote(s1: Sys, s2: Sys, f: nat, t: nat, off: nat)
  {
    && [LETTERA] in RootMap(s2.st.files) && RootMap(s2.st.files)[[LETTERA]] == t
    && t < |s2.st.files| && s2.st.files[t] == CREATED.(bytes := Splice([], off, [1]))
    && Filled(s1.st, s2.st, t, off, 1, 1)
    && OpenAs3(s2, f, t) && |s2.ofile| == NOFILE && s2.ofile[4] == NFILE && s2.loose == multiset{}
    && |s2.st.slots| < NINODE
    && f < |s1.ftable| && s2 == s1.(st := s2.st, ftable := s1.ftable[f := s1.ftable[f].(off := ToUint(off + 1))])
  }

  /** pwrite of one byte to the new file leaves it a file of that name. */
  lemma WroteFar(s1: Sys, s2: Sys, f: nat, t: nat, off: nat, r: int, moved: nat)
    requires SysOk(s1) && SysOk(s2) && HasFile(s1, f, t) && off < MAXBYTES && PWriteOk(s1, s2, 3, [1], 1, off, r, moved)
    ensures Wrote(s1, s2, f, t, off)
  {
    hide SysOk, RootMap, PWriteOk, OpenAs3, Splice, Filled, Unmarked, NoDirectoryWritten, RefOf;
    OpenUnfold(s1, f, t);
    OneByteWritten(s1, s2, f, t, 1, off, r, moved);
    RootMapKept(s1.st.files, t, Splice([], off, [1]));
    NothingLoose(s2);
  }

  lemma OpenUnfold(s: Sys, f: nat, t: nat)
    requires OpenAs3(s, f, t)
    ensures t < |s.st.files| && s.st.files[t].File? && f < |s.ftable| && f < |s.held| && s.held[f] == t
    ensures |s.ofile| == NOFILE && s.ofile[3] == f < NFILE
  {
  }

  /** ... whose number itrunc leaves behind. */
  lemma DanglesNow(s: Sys, s': Sys, st1: State, n: Name, r: int, f: nat, ip: nat, t: nat)
    requires SysOk(s) && t < |s.st.live| && s.st.live[t].addrs[NDIRECT + 1] != 0
    requires t < |s.st.files| && s.st.files[t].File? && s.st.files[t].typ == T_FILE
    requires OpenOk(s, s', st1, ROOTINO, [n], EMPTIED, r, f, ip, t) && r >= 0
    ensures t < |s'.st.live| && s'.st.live[t].typ == T_FILE
    ensures s'.st.live[t].addrs[NDIRECT + 1] != 0 && s'.st.live[t].addrs[NDIRECT + 1] !in s'.st.marked
  {
    assert ip != NINODE && st1.live == s.st.live && st1.files == s.st.files && Inv(st1, 0) && t in st1.slots
      by { hide SysOk, Inv, TreeOk, WithTrunc, Resolve, Cached; }
    assert s'.st == WithTrunc(st1, t) by { hide SysOk, Inv, WithTrunc, Looked, NotOpened; }
    hide SysOk, OpenOk, Inv, WithTrunc;
    TypeOfFile(st1, t);
    TruncDangles(st1, t);
  }

  lemma TruncDangles(st: State, t: nat)
    requires Inv(st, 0) && t in st.slots && t < |st.live| && st.live[t].typ == T_FILE
      && st.live[t].addrs[NDIRECT + 1] != 0
    ensures t < |WithTrunc(st, t).live| && WithTrunc(st, t).live[t].typ == T_FILE
    ensures WithTrunc(st, t).live[t].addrs[NDIRECT + 1] != 0
    ensures WithTrunc(st, t).live[t].addrs[NDIRECT + 1] !in WithTrunc(st, t).marked
  {
    HeldIfReferenced(st, t);
    HoldsAt(st, t, Root(NDIRECT + 1));
    hide Inv;
  }

  // ---------- a block read under a hole ----------

  lemma LeftOver(a: set<nat>, b: set<nat>)
    requires b <= a
    ensures |a - b| == |a| - |b|
  {
    assert a == (a - b) + b;
  }

  /** A byte written to the second block of the new file leaves a hole in the first. */
  ghost predicate HasHole(s: Sys, f: nat, t: nat)
  {
    && SysOk(s) && OpenAs3(s, f, t) && t != 0 && s.ftable[f].ref == 1 && RefOf(s.st.itable, s.st.slots, t) == 1
    && |s.st.files[t].bytes| > 0 && s.st.files[t].nlink == 1 && |Unmarked(s.st)| >= 3
    && t < |s.st.inodes| && s.st.inodes[t].addrs[0] == 0
  }

  lemma AfterGap(s1: Sys, s2: Sys, f: nat, t: nat, r: int, moved: nat)
    requires SysOk(s1) && SysOk(s2) && HasFile(s1, f, t) && PWriteOk(s1, s2, 3, [1], 1, BSIZE, r, moved)
    ensures HasHole(s2, f, t)
  {
    hide SysOk, PWriteOk, OpenAs3, Filled, RootMap, Unmarked, RefOf, NoDirectoryWritten;
    WroteFar(s1, s2, f, t, BSIZE, r, moved);
    RefsAlike(s1, s2, t);
    StillFree(s1, s2, f, t, BSIZE);
    FirstStaysEmpty(s1.st, s2.st, t) by { SysGives(s1); SysGives(s2); hide Inv, TablesOk; }
    OpenUnfold(s1, f, t);
    assert |Splice([], BSIZE, [1])| == BSIZE + 1;
  }

  lemma RefsAlike(s: Sys, s': Sys, j: nat)
    requires SysOk(s) && SysOk(s') && s'.held == s.held && s'.loose == s.loose && s'.c == s.c && j != 0
    ensures RefOf(s'.st.itable, s'.st.slots, j) == RefOf(s.st.itable, s.st.slots, j)
  {
    hide Inv, NsOk, EntryOk, IsDirFile, RefOf;
  }

  lemma StillFree(s1: Sys, s2: Sys, f: nat, t: nat, off: nat)
    requires SysOk(s1) && SysOk(s2) && HasFile(s1, f, t) && Wrote(s1, s2, f, t, off)
    ensures |Unmarked(s2.st)| >= 3
  {
    SysGives(s1);
    SysGives(s2);
    LengthsAgree(s1.st);
    TypeOfFile(s1.st, t);
    LengthsAgree(s2.st);
    TypeOfFile(s2.st, t);
    hide SysOk, RootMap, TablesOk, SlotsIn, Hung;
    assert Grew(s1.st, s2.st, t, SlotsIn(off, 1)) by { hide TableOk, FilesOk, Owned; }
    FreeAfter(s1.st, s2.st, t, off);
  }

  lemma FreeAfter(st: State, st': State, t: nat, off: nat)
    requires Grew(st, st', t, SlotsIn(off, 1)) && |Unmarked(st)| >= 6
    ensures |Unmarked(st')| >= 3
  {
    OneByteSlots(off);
    TakenAtMost(st, st', t, SlotsIn(off, 1));
    FullTakesAll(st, st', t, SlotsIn(off, 1));
    hide TreesOk, SlotsIn;
    assert Unmarked(st') == Unmarked(st) - Taken(st, st');
    LeftOver(Unmarked(st), Taken(st, st'));
  }

  lemma FirstStaysEmpty(st: State, st': State, t: nat)
    requires Inv(st, 0) && Inv(st', 0) && t < |st.live| && st.live[t].addrs == NOADDRS
      && Filled(st, st', t, BSIZE, 1, 1)
    requires t < |st.files| && st.files[t].File? && t < |st'.files| && st'.files[t].File?
    ensures t < |st'.inodes| && st'.inodes[t].addrs[0] == 0
  {
    LengthsAgree(st');
    TypeOfFile(st', t);
    OneByteSlots(BSIZE);
    var b := Ptr(st'.data, st'.live[t].addrs, Root(0));
    assert b == st'.live[t].addrs[0] && SlotOf(1).Path() == {Root(1)};
    HoldsAt(st', t, Root(0));
    ShadowAddrs(st', t, 0);
    hide Inv, Filled, SlotsIn;
    if b != 0 {
      NotOwnedBefore(st, st', t, b);
      OnlyInSlots(st, st', t, BSIZE, b);
    }
  }

  lemma OnlyInSlots(st: State, st': State, t: nat, off: nat, b: nat)
    requires Filled(st, st', t, off, 1, 1) && b in st'.owner && b !in st.owner
    ensures st'.owner[b].slot in SlotsIn(off, 1)
  {
    hide SlotsIn, RangeMapped;
    assert NewIn(st, st', b, t, SlotsIn(off, 1));
  }

  lemma NotOwnedBefore(st: State, st': State, t: nat, b: nat)
    requires Inv(st, 0) && t < |st.live| && st.live[t].addrs == NOADDRS && b in st'.owner
      && st'.owner[b] == Owner(t, Root(0)) && b != 0
    requires Filled(st, st', t, BSIZE, 1, 1)
    ensures b !in st.owner
  {
    hide TableOk, FilesOk, SlotsIn, RangeMapped;
    if b in st.owner { OwnedEarlier(st, t, Root(0), b); }
  }

  lemma ShadowAddrs(st: State, i: nat, k: nat)
    requires Inv(st, 0) && i < |st.live| && k < NADDR
    ensures i < |st.inodes| && (st.live[i].addrs[k] == 0 ==> st.inodes[i].addrs[k] == 0)
  {
    assert InodeOk(st.data, st.inodes[i], st.live[i], st.files[i]);
    hide TreesOk, TableOk, ZeroTail, FileBlock;
  }

  /** readi has hung a block under the hole, in memory only. */
  lemma AfterHoleRead(s2: Sys, s3: Sys, f: nat, t: nat, r: int, dst: seq<Byte>)
    requires HasHole(s2, f, t) && SysOk(s3) && PReadOk(s2, s3, 3, 1, 0, r, dst)
    ensures OpenAs3(s3, f, t) && s3.ftable[f].ref == 1 && RefOf(s3.st.itable, s3.st.slots, t) == 1
    ensures t != 0 && s3.st.files[t].nlink == 1 && t < |s3.st.inodes| && t < |s3.st.live|
    ensures s3.st.inodes[t].addrs[0] == 0 && s3.st.live[t].addrs[0] != 0
  {
    hide SysOk, PReadOk, Unmarked, RefOf, ReadOk;
    OneByteRead(s2, s3, f, t, 0, r, dst);
    RefsAlike(s2, s3, t);
    ReadHoleFacts(s2.st, s3.st, t, dst);
  }

  lemma ReadHoleFacts(st: State, st': State, t: nat, dst: seq<Byte>)
    requires ReadOk(st, st', t, 0, 1, dst) && |dst| == 1
    ensures st'.files == st.files && st'.inodes == st.inodes && t < |st'.live| && st'.live[t].addrs[0] != 0
  {
    hide Inv, Hung, SlotsIn, AtHole;
    assert SlotOf(0) == Root(0);
    hide SlotOf;
    assert Ptr(st'.data, st'.live[t].addrs, SlotOf(0)) != 0;
  }

  /** The block is lost when the last reference goes. */
  lemma DropLoses(st: State, t: nat)
    requires Inv(st, 0) && RefOf(st.itable, st.slots, t) == 1 && t < |st.files| && st.files[t].File?
      && st.files[t].nlink == 1
    requires t < |st.live| && t < |st.inodes| && st.inodes[t].addrs[0] == 0 && st.live[t].addrs[0] != 0
    ensures var b := st.live[t].addrs[0]; b in st.owner && !LostIn(st, b) && LostIn(AfterPut(st, t), b)
  {
    HeldIfReferenced(st, t);
    TypeOfFile(st, t);
    HoldsAt(st, t, Root(0));
    var b := st.live[t].addrs[0];
    assert Ptr(st.data, st.live[t].addrs, Root(0)) == b && Ptr(st.data, st.inodes[t].addrs, Root(0)) == 0;
    assert AfterPut(st, t) == WithDrop(st, t) by { DropsIt(st, t); }
    hide Inv, AfterPut, Ptr;
    assert b !in Remaining(st.data, st.owner, t, st.inodes[t]);
  }

  lemma DropsIt(st: State, t: nat)
    requires Inv(st, 0) && RefOf(st.itable, st.slots, t) == 1 && Held(st, t) && st.live[t].nlink == 1
    ensures AfterPut(st, t) == WithDrop(st, t)
  {
    HeldIfReferenced(st, t);
    hide Inv, WithDrop, WithFree, WithRef;
  }

  /** Block `b` is marked in use, but no file has it. */
  ghost predicate LostIn(st: State, b: nat) { b in st.data && b in st.marked && b !in st.owner }

  /** Write a byte to the second block of "a", read one from the hole before it, and close:
      the invariant holds, but the block that readi took is lost. */
  method ReadHole(disk: seq<Block>) returns (server: Server, ghost lost: nat)
    requires |disk| == FSSIZE
    ensures server.Valid() && LostIn(server.fs.St(), lost)
  {
    hide Views, SysOk, PWriteOk, PReadOk, CloseOk, NoDirectoryWritten, OpenAs3, HasFile, HasHole, Unmarked, RefOf,
         LostIn, AfterPut;
    ghost var f, t, moved;
    server, f, t := WithFile(disk);
    ghost var s1 := server.S();
    FileIsOpen(s1, f, t);
    var r, dst;
    r, moved := server.PWrite(3, [1], 1, BSIZE);
    ghost var s2 := server.S();
    AfterGap(s1, s2, f, t, r, moved);
    r, dst := server.PRead(3, 1, 0);
    ghost var s3 := server.S();
    AfterHoleRead(s2, s3, f, t, r, dst);
    OpenUnfold(s3, f, t);
    r := server.Close(3);
    lost := s3.st.live[t].addrs[0];
    ClosedLoses(s3, server.S(), f, t, r);
  }

  lemma ClosedLoses(s3: Sys, s4: Sys, f: nat, t: nat, r: int)
    requires SysOk(s3) && OpenAs3(s3, f, t) && s3.ftable[f].ref == 1 && RefOf(s3.st.itable, s3.st.slots, t) == 1
    requires t != 0 && s3.st.files[t].nlink == 1 && t < |s3.st.inodes| && t < |s3.st.live|
    requires s3.st.inodes[t].addrs[0] == 0 && s3.st.live[t].addrs[0] != 0 && CloseOk(s3, s4, 3, r)
    ensures LostIn(s4.st, s3.st.live[t].addrs[0])
  {
    hide SysOk, CloseOk, RefOf, LostIn, AfterPut, Seen;
    OpenUnfold(s3, f, t);
    CloseSeen(s3, s4, f, t, r);
    SysGives(s3);
    hide Inv, TablesOk;
    DropLoses(s3.st, t);
  }

  // ---------- filling the inode table ----------

  function NoFds(): seq<nat> { seq(NOFILE, _ => NFILE) }

  /** Nothing is open, "b" is a file that nobody refers to, and every other inode in use but
      the root is pinned. */
  ghost predicate Filling(s: Sys, b: nat)
  {
    && SysOk(s) && |s.st.files| == NINODES && s.ofile == NoFds() && ROOTINO in s.st.slots && b !in s.st.slots && b != 0
    && Seen(s) == Sight(DOTS[[LETTERB] := b], BSIZE, Seen(s).used, Seen(s).keys, NoFds())
    && b in Seen(s).used && |Seen(s).used| == |s.st.slots| + 1
  }

  lemma FillingRoom(s: Sys, b: nat)
    requires Filling(s, b) && |s.st.slots| < NINODE
    ensures SysOk(s) && CanCreate(Seen(s), |s.st.files|) && [LETTERA] !in RootMap(s.st.files)
  {
    hide SysOk, Used;
    SeenNames(s);
    assert DOTS[[LETTERB] := b].Keys == {DOT, DOTDOT, [LETTERB]};
  }

  /** The new file is open once, as descriptor 3, and has a name. */
  ghost predicate Pinning(s: Sys, s1: Sys, b: nat, f: nat, t: nat)
  {
    && SysOk(s1)
    && Seen(s1) ==
       Sight(DOTS[[LETTERB] := b][[LETTERA] := t], BSIZE, Seen(s).used + {t}, Seen(s).keys + {t}, NoFds()[3 := f])
    && t !in Seen(s).used && t !in Seen(s).keys && f < NFILE && |s1.ftable| == |s1.held| == NFILE
    && s1.held[f] == t && s1.ftable[f].ref == 1 && Linked(s1.st.files, t) && |s1.st.files| == NINODES
  }

  lemma FirstOpen(s: Sys, s1: Sys, st1: State, b: nat, r: int, f: nat, ip: nat, t: nat)
    requires Filling(s, b) && |s.st.slots| < NINODE && SysOk(s1)
    requires OpenOk(s, s1, st1, ROOTINO, [[LETTERA]], NEWFILE, r, f, ip, t)
    ensures Pinning(s, s1, b, f, t)
  {
    Flags();
    hide Flag, SysOk, Seen, OpenOk, RootMap, Sysfile.CreateDone, NewEntry, RefOf;
    FillingRoom(s, b);
    SeenNames(s);
    OpenCreates(s, s1, st1, [LETTERA], NEWFILE, r, f, ip, t);
    CreateSeen(s, s1, [LETTERA], ip, t, f);
    CreatedLive(s.st, st1, [LETTERA], ip, t);
    NewIsOpen(s, s1, st1, [LETTERA], NEWFILE, f, ip, t);
  }

  lemma SecondOpen(s: Sys, s1: Sys, s2: Sys, st1: State, b: nat, r: int, f: nat, g: nat, ip: nat, t: nat, u: nat)
    requires Pinning(s, s1, b, f, t) && SysOk(s2)
    requires OpenOk(s1, s2, st1, ROOTINO, [[LETTERA]], NEWFILE, r, g, ip, u)
    ensures Pinning(s, s2, b, f, t) && t in s2.loose
  {
    Flags();
    hide Flag, SysOk, Seen, OpenOk, RootMap;
    SeenNames(s1);
    OpenForgets(s1, s2, st1, [LETTERA], NEWFILE, r, g, ip, u);
    assert Seen(s1).keys + {t} == Seen(s1).keys;
  }

  lemma ThenClose(s: Sys, s2: Sys, s3: Sys, b: nat, f: nat, t: nat, r: int)
    requires Pinning(s, s2, b, f, t) && t in s2.loose && CloseOk(s2, s3, 3, r)
    ensures Seen(s3) == Seen(s2).(ofile := NoFds()) && s3.st.files == s2.st.files
  {
    CountedTwice(s2, f, t) by { hide RootMap, Used, NoFds; }
    hide SysOk, Seen, RootMap, CloseOk, RefOf, NoFds;
    SeenNames(s2);
    ClosesThree(f);
    CloseSeen(s2, s3, f, t, r);
  }

  lemma ClosesThree(f: nat)
    ensures NoFds()[3 := f][3 := NFILE] == NoFds() && |NoFds()| == NOFILE && NoFds()[3 := f][3] == f
  {
  }

  lemma CountedTwice(s: Sys, f: nat, t: nat)
    requires SysOk(s) && f < |s.held| && s.held[f] == t && t in s.loose && t != 0
    ensures RefOf(s.st.itable, s.st.slots, t) >= 2
  {
    hide Inv, NsOk, EntryOk, IsDirFile, RefOf;
    assert t in multiset(s.held);
  }

  lemma ThenUnlink(s: Sys, s2: Sys, s3: Sys, s4: Sys, b: nat, f: nat, t: nat, r: int)
    requires Filling(s, b) && Pinning(s, s2, b, f, t) && Seen(s3) == Seen(s2).(ofile := NoFds())
      && s3.st.files == s2.st.files
    requires SysOk(s3) && SysOk(s4) && s4 == s3.(st := s4.st) && Sysfile.UnlinkOk(s3.st, s4.st, ROOTINO, [[LETTERA]], r)
    ensures Filling(s4, b) && |s4.st.slots| == |s.st.slots| + 1
  {
    hide SysOk, Seen, RootMap, Sysfile.UnlinkOk, NoFds;
    SeenNames(s);
    SeenNames(s3);
    SeenNames(s4);
    UnlinkSeen(s3, s4, [LETTERA], r);
    assert DOTS[[LETTERB] := b][[LETTERA] := t] - {[LETTERA]} == DOTS[[LETTERB] := b];
    assert |Seen(s).used + {t}| == |Seen(s).used| + 1 && |Seen(s).keys + {t}| == |Seen(s).keys| + 1;
  }

  lemma PinningName(s: Sys, s1: Sys, b: nat, f: nat, t: nat)
    requires Pinning(s, s1, b, f, t)
    ensures SysOk(s1) && [LETTERA] in RootMap(s1.st.files) && RootMap(s1.st.files)[[LETTERA]] == t && t in s1.st.slots
  {
    hide SysOk, RootMap;
    SeenNames(s1);
  }

  /** Create "a", create it again, close it and remove it: its inode stays pinned. */
  method PinOne(server: Server, ghost b: nat)
    requires Filling(server.S(), b) && server.Valid() && |server.fs.slots| < NINODE
    modifies server, server.fs, server.fs.store
    ensures Filling(server.S(), b) && server.Valid() && |server.fs.slots| == |old(server.fs.slots)| + 1
  {
    Flags();
    hide Flag, Views, SysOk, Elements, OpenOk, OpenRoom, CloseOk, Sysfile.UnlinkOk, Sysfile.UnlinkRoom, Filling,
         Pinning, RootMap, Seen;
    ghost var s0 := server.S();
    OneElement(LETTERA, server.c);
    RoomAtRoot(s0, [LETTERA]);
    var r, ip, dangles;
    ghost var f, g, t, u, st1;
    r, ip, dangles, f, t, st1 := server.Open([SLASH, LETTERA], NEWFILE);
    ghost var s1 := server.S();
    FirstOpen(s0, s1, st1, b, r, f, ip, t);
    PinningName(s0, s1, b, f, t);
    RoomAtRoot(s1, [LETTERA]);
    r, ip, dangles, g, u, st1 := server.Open([SLASH, LETTERA], NEWFILE);
    ghost var s2 := server.S();
    SecondOpen(s0, s1, s2, st1, b, r, f, g, ip, t, u);
    r := server.Close(3);
    ghost var s3 := server.S();
    ThenClose(s0, s2, s3, b, f, t, r);
    PinningName(s0, s2, b, f, t);
    SeenNames(s2);
    SeenNames(s3);
    RoomAtRoot(s3, [LETTERA]);
    r := server.Remove([SLASH, LETTERA]);
    ThenUnlink(s0, s2, s3, server.S(), b, f, t, r);
  }

  /** Format, create "b", and pin inodes until the table is full: the server is in order,
      and to look up "b" is to panic. */
  method FillTable(disk: seq<Block>) returns (server: Server, ghost b: nat)
    requires |disk| == FSSIZE
    ensures server.Valid() && |server.fs.slots| == NINODE
    ensures [LETTERB] in RootMap(server.fs.files) && RootMap(server.fs.files)[[LETTERB]] == b
    ensures GetPanics(server.fs.itable, b)
    ensures !OpenRoom(server.fs.slots.Keys, server.fs.files, StartOf([SLASH, LETTERB], server.c),
      Elements([SLASH, LETTERB]), false)
  {
    Flags();
    hide Flag, Views, SysOk, Elements, OpenOk, OpenRoom, CloseOk, Filling, RootMap, Seen, GetPanics;
    server := Start(disk);
    ghost var s0 := server.S();
    OneElement(LETTERB, server.c);
    NothingLoose(s0);
    RoomAtRoot(s0, [LETTERB]);
    var r, ip, dangles;
    ghost var f, st1;
    r, ip, dangles, f, b, st1 := server.Open([SLASH, LETTERB], NEWFILE);
    ghost var (s1, r1) := (server.S(), r);
    r := server.Close(3);
    StartsFilling(s0, s1, server.S(), st1, r1, r, f, ip, b);
    var k := 1;
    while k < NINODE
      invariant k <= NINODE && server.Valid() && Filling(server.S(), b) && |server.fs.slots| == k
    {
      PinOne(server, b);
      k := k + 1;
    }
    NoWayToB(server.S(), b);
    OneElement(LETTERB, server.c);
  }

  lemma StartsFilling(s: Sys, s1: Sys, s2: Sys, st1: State, r1: int, r2: int, f: nat, ip: nat, b: nat)
    requires Started0(s) && s.ofile == NoFds() && SysOk(s1) && SysOk(s2)
    requires OpenOk(s, s1, st1, ROOTINO, [[LETTERB]], NEWFILE, r1, f, ip, b) && CloseOk(s1, s2, 3, r2)
    ensures Filling(s2, b) && |s2.st.slots| == 1
  {
    Flags();
    hide Flag, SysOk, Seen, OpenOk, CloseOk, RootMap, Sysfile.CreateDone, NewEntry, RefOf, NoFds;
    FirstCreate(s);
    OpenCreates(s, s1, st1, [LETTERB], NEWFILE, r1, f, ip, b);
    CreateSeen(s, s1, [LETTERB], ip, b, f);
    CreatedLive(s.st, st1, [LETTERB], ip, b);
    NewIsOpen(s, s1, st1, [LETTERB], NEWFILE, f, ip, b);
    ClosesThree(f);
    CloseSeen(s1, s2, f, b, r2);
    SeenNames(s);
    SeenNames(s2);
    assert {ROOTINO} + {b} - {b} == {ROOTINO} && |{ROOTINO} + {b}| == 2;
  }

  lemma NoWayToB(s: Sys, b: nat)
    requires Filling(s, b) && |s.st.slots| == NINODE
    ensures [LETTERB] in RootMap(s.st.files) && RootMap(s.st.files)[[LETTERB]] == b && GetPanics(s.st.itable, b)
    ensures !OpenRoom(s.st.slots.Keys, s.st.files, ROOTINO, [[LETTERB]], false)
  {
    hide SysOk, RootMap, GetPanics;
    SeenNames(s);
    SysGives(s);
    RootOfSys(s);
    hide Inv, TablesOk;
    GetPanicsIff(s.st, b);
    NotWalkable(s.st.slots.Keys, s.st.files, [LETTERB]);
  }

  lemma NotWalkable(keys: set<nat>, files: seq<File>, n: Name)
    requires ROOTINO in keys && IsDirFile(files, ROOTINO) && n in RootMap(files) && RootMap(files)[n] != 0
    requires !RoomFor(keys, RootMap(files)[n])
    ensures !OpenRoom(keys, files, ROOTINO, [n], false)
  {
    hide DirMap;
    assert keys + {ROOTINO} == keys;
    assert !StepRoom(keys, files, ROOTINO, n);
  }
}
