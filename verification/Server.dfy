/** The descriptor calls of the server (xv6fs/src/sysfile.c over xv6fs/src/file.c): open,
    close, dup, read, write, seek, and unlink, each keeping the whole invariant. */
module Server {
  import opened Layout
  import opened BlockTree
  import opened BlockStore
  import opened Invariant
  import opened Directory
  import opened FileSystem
  import opened DirectoryOps
  import opened Path
  import opened References
  import opened Namei
  import opened Links
  import opened Sysfile
  import opened OpenFiles
  import opened Space

  const EBADF: int := 9
  const EINVAL: int := 22
  const NDEV: int := 10
  const MAXCHUNK: nat := 3072    // ((MAXOPBLOCKS - 1 - 1 - 2) / 2) * BSIZE, MAXOPBLOCKS == 10

  // ---------- the name space under the steps of these calls ----------

  lemma NsAfterWalk(st: State, st': State, more: multiset<nat>)
    requires NsOk(st) && Walked(st, st', more)
    ensures NsOk(st')
  {
    hide Inv, LinksOk, DirOk, Cached;
    HoldingFacts(st, st', more);
  }

  /** Changing the bytes of a file that is not a directory. */
  lemma NsAfterBytes(st: State, st': State, i: nat, bytes: seq<Byte>)
    requires NsOk(st) && RefsKept(st, st') && i < |st.files| && st.files[i].File? && !IsDirFile(st.files, i)
    requires st'.files == st.files[i := st.files[i].(bytes := bytes)]
    requires ROOTINO in st'.solid && |st'.live| == |st'.inodes| == |st'.files|
    ensures NsOk(st') && (forall d: nat :: IsDirFile(st'.files, d) == IsDirFile(st.files, d))
  {
    LinksAfterBytes(st.files, i, bytes);
    hide RootMap, DirOk, Cached, LinksOk;
    forall j: nat | j < |st'.files| && st'.files[j].File? && st'.files[j].nlink == 0
      ensures Cached(st'.itable, st'.slots, j)
    {
      assert st.files[j].File? && st.files[j].nlink == 0;
      assert Cached(st.itable, st.slots, j);
    }
    assert i != ROOTINO;
    assert IsDirFile(st.files, ROOTINO);
  }

  lemma LinksAfterBytes(files: seq<File>, i: nat, bytes: seq<Byte>)
    requires LinksOk(files) && i < |files| && files[i].File? && !IsDirFile(files, i)
    ensures LinksOk(files[i := files[i].(bytes := bytes)])
  {
    var files' := files[i := files[i].(bytes := bytes)];
    assert IsDirFile(files, i) <==> i == ROOTINO;
    assert RootMap(files') == RootMap(files) by { hide DirMap; }
    hide RootMap;
    forall d: nat ensures IsDirFile(files', d) <==> d == ROOTINO { assert IsDirFile(files, d) <==> d == ROOTINO; }
  }

  /** iput may take away a file without links. */
  lemma NsAfterPut(st: State, st': State, i: nat)
    requires NsOk(st) && Inv(st, 0) && i in st.slots && PutOk(st, st', i)
    ensures NsOk(st') && (forall d: nat :: IsDirFile(st'.files, d) == IsDirFile(st.files, d))
  {
    hide Inv, RootMap, DirOk, LinksOk, BlocksOf;
    LengthsAgree(st');
    if LastPut(st, i) {
      LastPutUnlinked(st, i);
      LinksAfterFree(st.files, i);
    }
    RootIsLinked(st.files);
    PutKeepsOthers(st, st', i);
    forall j: nat | j < |st'.files| && st'.files[j].File? && st'.files[j].nlink == 0
      ensures Cached(st'.itable, st'.slots, j)
    {
      assert st.files[j].File? && st.files[j].nlink == 0;
      OrphanStays(st, st', i, j);
    }
  }

  lemma PutKeepsOthers(st: State, st': State, i: nat)
    requires PutOk(st, st', i) && Linked(st.files, ROOTINO) && Inv(st, 0)
    ensures |st'.files| == |st.files| && ROOTINO < |st.files| && st'.files[ROOTINO] == st.files[ROOTINO]
    ensures ROOTINO in st.solid ==> ROOTINO in st'.solid
  {
    hide Inv, BlocksOf, Held;
    if LastPut(st, i) { LastPutUnlinked(st, i); }
  }

  lemma OrphanStays(st: State, st': State, i: nat, j: nat)
    requires Inv(st, 0) && PutOk(st, st', i) && Cached(st.itable, st.slots, j) && j < |st.files| && j < |st'.files|
    requires st.files[j].File? && st.files[j].nlink == 0 && st'.files[j].File?
    ensures Cached(st'.itable, st'.slots, j)
  {
    HeldFacts(st, j);
    TypeOfFile(st, j);
    hide Inv, BlocksOf;
    ReferencedIffPositive(st);
    assert RefOf(st.itable, st.slots, j) > 0;
  }

  lemma LinksAfterFree(files: seq<File>, i: nat)
    requires LinksOk(files) && i < |files| && !Linked(files, i)
    ensures LinksOk(files[i := Free]) && forall d: nat :: IsDirFile(files[i := Free], d) == IsDirFile(files, d)
  {
    var files' := files[i := Free];
    assert i != ROOTINO;
    assert RootMap(files') == RootMap(files) by { hide DirMap; }
    hide RootMap;
    forall d: nat ensures (IsDirFile(files', d) <==> d == ROOTINO) && IsDirFile(files', d) == IsDirFile(files, d)
    {
      assert IsDirFile(files, d) <==> d == ROOTINO;
    }
  }

  // ---------- what the calls do ----------

  /** The open file behind a descriptor, NFILE when there is none. */
  function Behind(s: Sys, fd: int): nat { if 0 <= fd < |s.ofile| && s.ofile[fd] < NFILE then s.ofile[fd] else NFILE }

  /** `fd` is the lowest free descriptor from 3 on; -1 when there is none. */
  predicate LowestFree(ofile: seq<nat>, fd: int)
  {
    && |ofile| == NOFILE && (fd == -1 || (3 <= fd < NOFILE && ofile[fd] == NFILE))
    && forall k :: 3 <= k < (if fd == -1 then NOFILE else fd) ==> ofile[k] != NFILE
  }

  ghost predicate DupOk(s: Sys, s': Sys, fd: int, r: int)
  {
    if Behind(s, fd) == NFILE then r == -1 && s' == s
    else LowestFree(s.ofile, r) && s' == if r == -1 then s else Duped(s, r, Behind(s, fd))
  }

  /** close: the inode reference is put with the last descriptor, and not before. */
  ghost predicate CloseOk(s: Sys, s': Sys, fd: int, r: int)
  {
    if Behind(s, fd) == NFILE || Behind(s, fd) >= |s.ftable| || Behind(s, fd) >= |s.held| then r == -1 && s' == s
    else
      var (e, i) := (s.ftable[Behind(s, fd)], s.held[Behind(s, fd)]);
      r == 0 && if e.ref > 1 then s' == Dropped(s, fd)
                else s' == Loosened(s, fd).(st := AfterPut(s.st, i), loose := s.loose) && PutOk(s.st, s'.st, i)
  }

  // ---------- open ----------

  const O_WRONLY: int := 0x1
  const O_RDWR: int := 0x2
  const O_CREAT: int := 0x40
  const O_TRUNC: int := 0x200

  predicate Flag(omode: int, bit: int)
    requires bit > 0
  {
    omode / bit % 2 == 1
  }

  /** open's first step: create a file, or look one up and lock it. */
  ghost predicate Looked(st: State, st1: State, start: nat, els: seq<Name>, creat: bool, ip: nat, t: nat)
  {
    if creat then CreateOk(st, st1, start, els, File(T_FILE, 0, 0, 1, []), ip, t)
    else if Resolve(st.files, start, els) == 0 then ip == NINODE && Walked(st, st1, multiset{})
    else t == Resolve(st.files, start, els) && ip < NINODE && Standing(st, st1, t) && Cached(st1.itable, st1.slots, t)
         && st1.slots[t] == ip
  }

  /** open finds a table entry for every inode it goes through. */
  predicate OpenRoom(keys: set<nat>, files: seq<File>, start: nat, els: seq<Name>, creat: bool)
  {
    if creat then CreateRoom(keys, files, start, els) else NameRoom(keys, files, start, els, false)
  }

  /** The reference that create forgets, when the name it is to make exists already. */
  function Forgotten(files: seq<File>, start: nat, els: seq<Name>, creat: bool): multiset<nat>
  {
    if creat && ResolveParent(files, start, els) != 0 && els != [] && els[|els| - 1] in RootMap(files)
    then multiset{RootMap(files)[els[|els| - 1]]} else multiset{}
  }

  /** The new entry of the open-file table. */
  function NewEntry(e: OpenFile, omode: int, typ: Short, major: Short, ip: nat): OpenFile
  {
    var e1 :=
      e.(ref := 1, ip := ip, readable := !Flag(omode, O_WRONLY),
        writable := Flag(omode, O_WRONLY) || Flag(omode, O_RDWR));
    if typ == T_DEVICE then e1.(typ := FdDevice, major := major) else e1.(typ := FdInode, off := 0)
  }

  predicate BadDevice(f: File) { f.File? && f.typ == T_DEVICE && (f.major < 0 || f.major >= NDEV) }

  predicate Truncates(f: File, omode: int) { f.File? && f.typ == T_FILE && Flag(omode, O_TRUNC) }

  /** Opening file `t` truncates it, and it has a double-indirect block. */
  ghost predicate Dangles(st: State, t: nat, omode: int)
  {
    t < |st.files| && t < |st.live| && Truncates(st.files[t], omode) && st.live[t].addrs[NDIRECT + 1] != 0
  }

  /** The inode found is as it was before open, or new and without blocks. */
  lemma LookedInode(s: Sys, st1: State, start: nat, els: seq<Name>, creat: bool, ip: nat, t: nat,
                    omode: int)
    requires SysOk(s) && Looked(s.st, st1, start, els, creat, ip, t) && ip != NINODE
    ensures t < |st1.files| && t < |st1.live|
    ensures Truncates(st1.files[t], omode) && st1.live[t].addrs[NDIRECT + 1] != 0 <==> !creat && Dangles(s.st, t, omode)
  {
    LookedFile(s, st1, start, els, creat, ip, t);
    AtOpenFacts(s, st1, ip, t);
    hide Inv, NsOk, TablesOk, AtOpen, Resolve, ResolveParent, RootMap, Holding, TreeOk, FullDisk, Relinked, Truncates;
    LengthsAgree(s.st);
  }

  /** Nothing is open that was not: the reference to inode `t` of state `st1` goes back, which
      leaves no trace but in the inode table. */
  ghost predicate NotOpened(s: Sys, s': Sys, st1: State, t: nat)
  {
    s' == s.(st := s'.st) && Holding(s.st, s'.st, multiset{}) && SameDisk(st1, s'.st) && PutOk(st1, s'.st, t)
  }

  /** Inode `t`, found in state `st1`, got an entry `f` of the open-file table and the
      lowest free descriptor `r`; or there is none, and then nothing. */
  ghost predicate Attached(s: Sys, s': Sys, st1: State, st2: State, t: nat, omode: int, r: int, f: nat)
  {
    && t < |st1.files| && st1.files[t].File? && t in st1.slots && |s.ftable| == NFILE && LowestFree(s.ofile, r)
    && if r == -1 then NotOpened(s, s', st1, t)
       else f < NFILE && s.ftable[f].ref == 0
            && s' ==
               Opened(s.(st := st2, loose := s.loose + multiset{t}), r, f,
                 NewEntry(s.ftable[f], omode, st1.files[t].typ, st1.files[t].major, st1.slots[t]), t)
  }

  /** What open does once the file is found. */
  ghost predicate OpenedOk(s: Sys, s': Sys, st1: State, t: nat, omode: int, r: int, f: nat)
  {
    t < |st1.files| && if BadDevice(st1.files[t]) then r == -1 && NotOpened(s, s', st1, t)
    else Attached(s, s', st1, if Truncates(st1.files[t], omode) then WithTrunc(st1, t) else st1, t, omode, r, f)
  }

  ghost predicate OpenOk(s: Sys, s': Sys, st1: State, start: nat, els: seq<Name>, omode: int, r: int, f: nat, ip: nat,
                         t: nat)
  {
    && Looked(s.st, st1, start, els, Flag(omode, O_CREAT), ip, t)
    && if ip == NINODE
       then r == -1 && s' == s.(st := st1, loose := s.loose + Forgotten(s.st.files, start, els, Flag(omode, O_CREAT)))
       else OpenedOk(s, s', st1, t, omode, r, f)
  }

  lemma LookedNothing(s: Sys, st1: State, start: nat, els: seq<Name>, creat: bool, t: nat)
    requires SysOk(s) && Looked(s.st, st1, start, els, creat, NINODE, t)
    ensures SysOk(s.(st := st1, loose := s.loose + Forgotten(s.st.files, start, els, creat)))
  {
    hide Inv, LinksOk, TablesOk, RootMap, Resolve, ResolveParent, FullDisk;
    var more := Forgotten(s.st.files, start, els, creat);
    CwdIsDir(s);
    assert Holding(s.st, st1, more) && st1.files == s.st.files && st1.solid == s.st.solid by {
      hide NsOk, Holding, Standing;
    }
    NsAfterLook(s.st, st1, more);
    Carried(s, st1, more);
  }

  lemma CwdIsDir(s: Sys)
    requires TablesOk(s)
    ensures IsDirFile(s.st.files, s.c)
  {
  }

  lemma NsAfterLook(st: State, st': State, more: multiset<nat>)
    requires NsOk(st) && Holding(st, st', more) && st'.files == st.files && st'.solid == st.solid
    ensures NsOk(st') && Inv(st', 0)
  {
    hide Inv, LinksOk, DirOk, Cached;
    HoldingFacts(st, st', more);
  }

  /** The file is found: referenced and loaded, in state `st1`. */
  ghost predicate AtOpen(s: Sys, st1: State, ip: nat, t: nat)
  {
    && SysOk(s) && SysOk(s.(st := st1, loose := s.loose + multiset{t})) && Holding(s.st, st1, multiset{t})
    && Cached(st1.itable, st1.slots, t) && st1.slots[t] == ip
    && (t in s.st.slots || (Linked(st1.files, t) && Exists(st1, t) && st1.inodes[t] == st1.live[t]))
  }

  lemma LookedFile(s: Sys, st1: State, start: nat, els: seq<Name>, creat: bool, ip: nat, t: nat)
    requires SysOk(s) && Looked(s.st, st1, start, els, creat, ip, t) && ip != NINODE
    ensures AtOpen(s, st1, ip, t)
  {
    hide Inv, LinksOk, TablesOk, RootMap, Resolve, ResolveParent;
    CwdIsDir(s);
    if creat {
      hide Holding, Cached;
      LookedNew(s.st, st1, start, els, ip, t);
      OneDirectory(s.st, st1, s.c);
    } else {
      hide Holding, TreeOk, Cached;
      NsAfterLook(s.st, st1, multiset{t});
      LengthsAgree(s.st);
      HeldLoaded(s.st, st1, multiset{t}, t);
      UnreferencedIsSynced(s.st, t);
    }
    Carried(s, st1, multiset{t});
  }

  lemma AtOpenFacts(s: Sys, st1: State, ip: nat, t: nat)
    requires AtOpen(s, st1, ip, t)
    ensures Inv(st1, 0) && t in st1.slots && st1.slots[t] == ip < |st1.itable|
    ensures st1.itable[ip].valid && st1.itable[ip].ref > 0 && st1.itable[ip].inum == t
    ensures 0 < t < |st1.files| == |st1.live| && st1.files[t].File?
    ensures st1.itable[ip].d.typ == st1.files[t].typ && st1.itable[ip].d.major == st1.files[t].major
    ensures st1.itable[ip].d == st1.live[t]
  {
    hide Inv, Holding, SysOk;
    HeldLoaded(s.st, st1, multiset{t}, t);
    HeldFacts(st1, t);
    HeldIsReferenced(s.st, st1, multiset{t}, t);
    LengthsAgree(st1);
  }

  lemma LookedNew(st: State, st1: State, start: nat, els: seq<Name>, ip: nat, t: nat)
    requires CreateOk(st, st1, start, els, File(T_FILE, 0, 0, 1, []), ip, t) && ip != NINODE
    ensures Holding(st, st1, multiset{t}) && Cached(st1.itable, st1.slots, t)
    ensures st1.slots[t] == ip && NsOk(st1) && Linked(st1.files, t) && Inv(st1, 0)
    ensures Exists(st1, t) && st1.inodes[t] == st1.live[t]
  {
    hide Inv, NsOk, RootMap, Resolve, ResolveParent, Cached, Extended, HasPlace, Tidy;
    SolidSynced(st1, t);
    HoldingFacts(st, st1, multiset{t});
    CreatedLinked(st, st1, els[|els| - 1], ip, t);
  }

  lemma CreatedLinked(st: State, st1: State, n: Name, ip: nat, t: nat)
    requires CreateDone(st, st1, n, File(T_FILE, 0, 0, 1, []), ip, t)
    ensures Linked(st1.files, t)
  {
    hide Inv, RootMap, Cached, Holding, DirOk;
    assert t in st1.solid;
    assert IsDirFile(st1.files, ROOTINO);
    assert RootMap(st1.files)[n] == t;
    assert n in RootMap(st1.files);
  }

  lemma OneDirectory(st: State, st1: State, c: nat)
    requires NsOk(st) && NsOk(st1) && IsDirFile(st.files, c)
    ensures IsDirFile(st1.files, c)
  {
    hide RootMap, IsDir;
    assert IsDirFile(st.files, c) <==> c == ROOTINO;
    assert IsDirFile(st1.files, c) <==> c == ROOTINO;
  }

  /** Letting go of the inode on the ways out. */
  lemma LetGo(s: Sys, st1: State, st2: State, ip: nat, t: nat)
    requires AtOpen(s, st1, ip, t) && PutOk(st1, st2, t)
    ensures NotOpened(s, s.(st := st2), st1, t) && SysOk(s.(st := st2))
  {
    hide Inv, Holding, TablesOk, BlocksOf, LastPut, PutOk, LinksOk;
    HoldAfterPut(s.st, st1, st2, multiset{t}, t);
    PutLeavesNoTrace(s.st, st1, st2, multiset{t}, t);
    assert multiset{t} - multiset{t} == multiset{};
    HeldIsReferenced(s.st, st1, multiset{t}, t);
    NsAfterPut(st1, st2, t);
    PutGivesInv(st1, st2, t);
    CwdIsDir(s.(st := st1, loose := s.loose + multiset{t}));
    Carried(s, st2, multiset{});
    assert s.loose + multiset{} == s.loose;
  }

  lemma IsBadDevice(f: File, typ: Short, major: Short, omode: int)
    requires f.File? && f.typ == typ && f.major == major && typ == T_DEVICE && (major < 0 || major >= NDEV)
    ensures BadDevice(f) && !Truncates(f, omode)
  {
  }

  lemma IsGoodDevice(f: File, typ: Short, major: Short, omode: int)
    requires f.File? && f.typ == typ && f.major == major && !(typ == T_DEVICE && (major < 0 || major >= NDEV))
    ensures !BadDevice(f) && (Truncates(f, omode) <==> Flag(omode, O_TRUNC) && typ == T_FILE)
  {
  }

  lemma AttachFacts(s: Sys, st1: State, ip: nat, t: nat)
    requires AtOpen(s, st1, ip, t)
    ensures |s.ftable| == |s.held| == NFILE && |s.ofile| == NOFILE && exists f :: 0 <= f < NFILE && s.ftable[f].ref == 0
    ensures forall f {:trigger s.ftable[f]} :: 0 <= f < NFILE && s.ftable[f].ref == 0 ==> s.ftable[f].typ == FdNone
  {
    hide Inv, NsOk, Holding, Cached, Accounted, IsDirFile;
    FileTableHasRoom(s);
    forall f: nat | f < NFILE && s.ftable[f].ref == 0 ensures s.ftable[f].typ == FdNone {
      assert EntryOk(s.st, s.ftable[f], s.held[f], multiset(s.ofile)[f]);
    }
  }

  lemma NoDescriptor(s: Sys, s': Sys, st1: State, ip: nat, t: nat, omode: int, f: nat)
    requires AtOpen(s, st1, ip, t) && NotOpened(s, s', st1, t) && LowestFree(s.ofile, -1)
    ensures Attached(s, s', st1, st1, t, omode, -1, f)
  {
    hide SysOk, Holding, NotOpened;
    AtOpenFacts(s, st1, ip, t);
    AttachFacts(s, st1, ip, t);
  }

  lemma FailedAlike(s: Sys, s': Sys, st1: State, t: nat, omode: int, f: nat)
    requires Attached(s, s', st1, st1, t, omode, -1, f)
    ensures Attached(s, s', st1, WithTrunc(st1, t), t, omode, -1, f)
  {
    hide NotOpened;
  }

  lemma HasDescriptor(s: Sys, s': Sys, st1: State, ip: nat, t: nat, omode: int, r: int, f: nat)
    requires AtOpen(s, st1, ip, t) && r >= 0 && LowestFree(s.ofile, r)
    requires f < NFILE && |s.ftable| == NFILE && s.ftable[f].ref == 0
    requires t < |st1.files| && st1.files[t].File? && |s.held| == NFILE
    requires s' == s.(st := st1, ofile := s.ofile[r := f], held := s.held[f := t],
                      ftable := s.ftable[f := NewEntry(s.ftable[f], omode, st1.files[t].typ, st1.files[t].major, ip)])
    ensures Attached(s, s', st1, st1, t, omode, r, f) && SysOk(s')
  {
    hide Inv, NsOk, Holding, TablesOk;
    AtOpenFacts(s, st1, ip, t);
    var s1 := s.(st := st1, loose := s.loose + multiset{t});
    assert s.loose + multiset{t} - multiset{t} == s.loose;
    OpenedKeeps(s1, r, f, NewEntry(s.ftable[f], omode, st1.files[t].typ, st1.files[t].major, ip), t);
  }

  /** itrunc in open. */
  lemma TruncIsSound(s: Sys, s1: Sys, st1: State, ip: nat, t: nat, omode: int, r: int, f: nat)
    requires AtOpen(s, st1, ip, t) && r >= 0 && Attached(s, s1, st1, st1, t, omode, r, f) && SysOk(s1) && t < |st1.live|
    requires t < |st1.files| && st1.files[t].File? && st1.files[t].typ == T_FILE
    ensures Attached(s, s1.(st := WithTrunc(st1, t)), st1, WithTrunc(st1, t), t, omode, r, f)
    ensures SysOk(s1.(st := WithTrunc(st1, t))) <==> st1.live[t].addrs[NDIRECT + 1] == 0
  {
    hide Inv, NsOk, Holding, TablesOk, WithTrunc, NotOpened;
    AtOpenFacts(s, st1, ip, t);
    assert s1.st == st1;
    TruncKeepsRest(st1, t);
    TruncIsSoundIff(st1, t);
    if st1.live[t].addrs[NDIRECT + 1] == 0 { TruncKeepsSys(s1, t); }
  }

  lemma TruncKeepsRest(st: State, t: nat)
    requires Inv(st, 0) && Cached(st.itable, st.slots, t) && t < |st.files| && st.files[t].File?
    ensures Allocated(st.live, t) && RefsKept(st, WithTrunc(st, t)) && WithTrunc(st, t).solid == st.solid
    ensures WithTrunc(st, t).files == st.files[t := st.files[t].(bytes := [])]
    ensures |WithTrunc(st, t).live| == |WithTrunc(st, t).inodes| == |WithTrunc(st, t).files|
  {
    HeldFacts(st, t);
    TypeOfFile(st, t);
    LengthsAgree(st);
    hide Inv, BlocksOf, OwnerWithout, FileByte;
    SameRefsKept(st, WithTrunc(st, t));
    FileOfTruncated(st, t);
  }

  lemma FileOfTruncated(st: State, t: nat)
    requires Inv(st, 0) && t < |st.live| && t < |st.files| && st.files[t].File?
    ensures FileOf(st.data, Truncated(st.live[t])) == st.files[t].(bytes := [])
  {
    TypeOfFile(st, t);
    hide Inv, FileByte;
  }

  lemma TruncKeepsSys(s: Sys, t: nat)
    requires SysOk(s) && Cached(s.st.itable, s.st.slots, t) && t < |s.st.files|
    requires s.st.files[t].File? && s.st.files[t].typ == T_FILE
    requires Inv(WithTrunc(s.st, t), 0)
    ensures SysOk(s.(st := WithTrunc(s.st, t)))
  {
    hide Inv, TablesOk, WithTrunc, LinksOk, DirOk, Cached;
    TruncKeepsRest(s.st, t);
    NsAfterBytes(s.st, WithTrunc(s.st, t), t, []);
    HoldNothing(s.st);
    HoldAfterKeep(s.st, s.st, WithTrunc(s.st, t), multiset{});
    CwdIsDir(s);
    Carried(s, WithTrunc(s.st, t), multiset{});
    assert s.loose + multiset{} == s.loose;
  }

  /** What open does keeps the server in order, unless it is to truncate a file that has a
      double-indirect block. */
  lemma OpenKeepsSysIff(s: Sys, s': Sys, st1: State, start: nat, els: seq<Name>, omode: int, r: int, f: nat, ip: nat,
                        t: nat)
    requires SysOk(s) && OpenOk(s, s', st1, start, els, omode, r, f, ip, t)
    ensures SysOk(s') <==> !(r >= 0 && !Flag(omode, O_CREAT) && Dangles(s.st, t, omode))
  {
    hide SysOk, Looked, Dangles, AtOpen, OpenedOk, Truncates;
    if ip == NINODE {
      LookedNothing(s, st1, start, els, Flag(omode, O_CREAT), t);
    } else {
      LookedFile(s, st1, start, els, Flag(omode, O_CREAT), ip, t);
      LookedInode(s, st1, start, els, Flag(omode, O_CREAT), ip, t, omode);
      OpenedKeepsIff(s, s', st1, ip, t, omode, r, f);
    }
  }

  lemma OpenedKeepsIff(s: Sys, s': Sys, st1: State, ip: nat, t: nat, omode: int, r: int, f: nat)
    requires AtOpen(s, st1, ip, t) && OpenedOk(s, s', st1, t, omode, r, f) && t < |st1.live|
    ensures SysOk(s') <==> !(r >= 0 && Truncates(st1.files[t], omode) && st1.live[t].addrs[NDIRECT + 1] != 0)
  {
    hide SysOk, AtOpen, WithTrunc, NewEntry, Holding, PutOk, SameDisk;
    if r == -1 {
      LetGo(s, st1, s'.st, ip, t);
    } else {
      AtOpenFacts(s, st1, ip, t);
      AtOpenTables(s, st1, ip, t);
      var (e, loose) := (NewEntry(s.ftable[f], omode, st1.files[t].typ, st1.files[t].major, ip), s.loose + multiset{t});
      var s1 := Opened(s.(st := st1, loose := loose), r, f, e, t);
      assert loose - multiset{t} == s.loose;
      HasDescriptor(s, s1, st1, ip, t, omode, r, f);
      if Truncates(st1.files[t], omode) { TruncIsSound(s, s1, st1, ip, t, omode, r, f); }
    }
  }

  lemma AtOpenTables(s: Sys, st1: State, ip: nat, t: nat)
    requires AtOpen(s, st1, ip, t)
    ensures |s.ftable| == |s.held| == NFILE && |s.ofile| == NOFILE
  {
    hide Inv, NsOk, Holding, Cached, Accounted, IsDirFile;
  }

  /** So does close. */
  lemma CloseKeepsSys(s: Sys, s': Sys, fd: int, r: int)
    requires SysOk(s) && CloseOk(s, s', fd, r)
    ensures SysOk(s')
  {
    hide Inv, NsOk, TablesOk, PutOk, AfterPut, Loosened;
    DescriptorFacts(s, fd);
    if Behind(s, fd) != NFILE {
      if s.ftable[Behind(s, fd)].ref > 1 { DroppedKeeps(s, fd); } else { ClosedLast(s, s'.st, fd); }
    }
  }

  // ---------- read, write and seek ----------

  /** The unsigned 32-bit value of an int, and back. */
  function ToUint(n: int): Uint { n % 0x1_0000_0000 }
  function ToInt(u: Uint): int { if u < 0x8000_0000 then u else u - 0x1_0000_0000 }

  ghost predicate FileReadOk(s: Sys, s': Sys, f: nat, n: int, r: int, dst: seq<Byte>)
  {
    && f < |s.ftable| && f < |s.held|
    && var (e, i) := (s.ftable[f], s.held[f]);
       if !e.readable then r == -EBADF && dst == [] && s' == s
       else if e.typ == FdDevice then r == -EINVAL && dst == [] && s' == s
       else r == |dst| && s' == Moved(s.(st := s'.st), f, ToUint(e.off + |dst|))
            && ReadOk(s.st, s'.st, i, e.off, ToUint(n), dst)
  }

  function Min(a: int, b: int): int { if a < b then a else b }

  /** File `t` now holds `bytes`; no other file and no reference has changed. */
  ghost predicate Written(st: State, st': State, t: nat, bytes: seq<Byte>)
  {
    && t < |st.files| && st.files[t].File? && Inv(st', 0) && RefsKept(st, st')
    && st'.files == st.files[t := st.files[t].(bytes := bytes)]
    && (t != ROOTINO && ROOTINO in st.solid ==> ROOTINO in st'.solid)
    && (NoLeak(st) ==> NoLeak(st')) && (Tidy(st) ==> Tidy(st'))
  }

  /** filewrite has put the first `i` bytes of `src` at `off` in file `t`, in whole chunks. */
  ghost predicate Chunks(st: State, st': State, t: nat, off: Uint, src: seq<Byte>, i: nat)
  {
    && i <= |src| && t < |st.files| && st.files[t].File? && (i > 0 ==> off + i <= MAXBYTES)
    && Written(st, st', t, if i == 0 then st.files[t].bytes else Splice(st.files[t].bytes, off, src[..i]))
    && Filled(st, st', t, off, |src|, i)
  }

  lemma WrittenStep(st: State, st1: State, st2: State, t: nat, bytes: seq<Byte>, o: Uint, piece: seq<Byte>, w: int)
    requires Written(st, st1, t, bytes) && WriteOk(st1, st2, t, o, piece, w) && w >= 0
    ensures w <= |piece| && Written(st, st2, t, Splice(bytes, o, piece[..w]))
    ensures !Refused(o, |piece|)
  {
    hide Inv, Splice, FullDisk, NoLeak, Hung, SlotsIn, RangeMapped, AtHole, Tidy;
    if Tidy(st) { WriteKeepsTidy(st1, st2, t, o, piece, w); }
    SameRefsKept(st1, st2);
    assert RefsKept(st, st2) by { RefsKeptTwice(st, st1, st2); }
    hide RefsKept;
    assert st1.files[t].bytes == bytes;
  }

  lemma RefsKeptTwice(st: State, st1: State, st2: State)
    requires RefsKept(st, st1) && RefsKept(st1, st2)
    ensures RefsKept(st, st2)
  {
    forall j: nat
      ensures RefOf(st2.itable, st2.slots, j) == RefOf(st.itable, st.slots, j)
      ensures Cached(st.itable, st.slots, j) ==> Cached(st2.itable, st2.slots, j)
    {
      assert RefOf(st1.itable, st1.slots, j) == RefOf(st.itable, st.slots, j);
      assert Cached(st.itable, st.slots, j) ==> Cached(st1.itable, st1.slots, j);
    }
  }

  /** In the loop of filewrite: `i` bytes are written and the offset has moved as far. */
  ghost predicate InChunks(s: Sys, s1: Sys, f: nat, src: seq<Byte>, i: nat)
  {
    && f < |s.ftable| && f < |s.held| && (i % MAXCHUNK == 0 || i == |src|) && s.ftable[f].off + i < 0x1_0000_0000
    && Chunks(s.st, s1.st, s.held[f], s.ftable[f].off, src, i)
    && s1 == Moved(s.(st := s1.st), f, s.ftable[f].off + i)
  }

  /** One chunk: `moved` is where the offset ends up. */
  lemma ChunkStep(s: Sys, st1: State, st2: State, f: nat, src: seq<Byte>, i: nat, w: int)
    requires f < |s.ftable| && f < |s.held| && Chunks(s.st, st1, s.held[f], s.ftable[f].off, src, i) && i < |src|
    requires s.ftable[f].off + i < 0x1_0000_0000 && i % MAXCHUNK == 0
    requires WriteOk(st1, st2, s.held[f], s.ftable[f].off + i, ChunkAt(src, i), w)
    ensures w <= |ChunkAt(src, i)| && Written(s.st, st2, s.held[f], BytesOf(st2.files, s.held[f]))
    ensures w == |ChunkAt(src, i)| ==> Chunks(s.st, st2, s.held[f], s.ftable[f].off, src, i + w)
    ensures w != |ChunkAt(src, i)| ==>
      WroteOk(s, Moved(s.(st := st2), f, ToUint(s.ftable[f].off + i + Max0(w))), f, src, i, i + Max0(w))
  {
    hide Inv, Splice, FullDisk, NoLeak, Tidy, Written, RefsKept, WriteOk, Filled, AtHole, WroteOk, ChunkAt;
    var (t, off, piece) := (s.held[f], s.ftable[f].off, ChunkAt(src, i));
    var (c, n1) := (s.st.files[t].bytes, |piece|);
    ChunkFacts(src, i, w);
    var bytes := if i == 0 then c else Splice(c, off, src[..i]);
    if w >= 0 {
      WrittenStep(s.st, st1, st2, t, bytes, off + i, piece, w);
      WrittenIsInv(s.st, st1, t, bytes);
      FilledMore(s.st, st1, st2, t, off, |src|, i, piece, w);
      if i > 0 { SpliceTwice(c, off, src[..i], piece[..w]); }
      assert Written(s.st, st2, t, Splice(c, off, src[..i + w]));
      WrittenItself(s.st, st2, t, Splice(c, off, src[..i + w]));
      if w != n1 { ShortOk(s, st2, f, src, i, i + w); }
    } else {
      assert st2 == st1 && Refused(off + i, n1) by { WriteRefused(st1, st2, t, off + i, piece, w); }
      WrittenItself(s.st, st2, t, bytes);
      RefusedOk(s, st2, f, src, i);
    }
  }

  /** ... in the loop. */
  lemma ChunkDone(s: Sys, s1: Sys, s2: Sys, f: nat, src: seq<Byte>, i: nat, w: int)
    requires InChunks(s, s1, f, src, i) && i < |src|
    requires WriteOk(s1.st, s2.st, s.held[f], s.ftable[f].off + i, ChunkAt(src, i), w)
    requires s2 == Moved(s.(st := s2.st), f, ToUint(s.ftable[f].off + i + Max0(w)))
    ensures w <= |ChunkAt(src, i)|
    ensures if w == |ChunkAt(src, i)| then InChunks(s, s2, f, src, i + w) else WroteOk(s, s2, f, src, i, i + Max0(w))
  {
    hide WriteOk, WroteOk, ChunkAt, Chunks, Written;
    ChunkStep(s, s1.st, s2.st, f, src, i, w);
    ChunkFacts(src, i, w);
    if w == |ChunkAt(src, i)| { ChunksBound(s, s2.st, f, src, i + w); }
  }

  /** The chunk of `src` that is written when `i` bytes have been. */
  function ChunkAt(src: seq<Byte>, i: nat): seq<Byte>
  {
    if i > |src| then [] else src[i..i + Min(|src| - i, MAXCHUNK)]
  }

  function Max0(w: int): nat { if w > 0 then w else 0 }

  lemma ChunkFacts(src: seq<Byte>, i: nat, w: int)
    requires i < |src|
    ensures |ChunkAt(src, i)| == Min(|src| - i, MAXCHUNK) > 0
    ensures 0 <= w <= |ChunkAt(src, i)| ==> src[..i] + ChunkAt(src, i)[..w] == src[..i + w]
    ensures i == 0 && 0 <= w <= |ChunkAt(src, i)| ==> ChunkAt(src, i)[..w] == src[..w]
  {
  }

  lemma WrittenIsInv(st: State, st': State, t: nat, bytes: seq<Byte>)
    requires Written(st, st', t, bytes)
    ensures Inv(st', 0)
  {
    hide Inv, RefsKept, NoLeak, Tidy;
  }

  lemma WrittenItself(st: State, st': State, t: nat, bytes: seq<Byte>)
    requires Written(st, st', t, bytes)
    ensures Written(st, st', t, BytesOf(st'.files, t)) && BytesOf(st'.files, t) == bytes
  {
    hide Inv, RefsKept, NoLeak, Tidy;
  }

  lemma WriteRefused(st: State, st': State, i: nat, off: Uint, src: seq<Byte>, w: int)
    requires WriteOk(st, st', i, off, src, w) && w < 0
    ensures st' == st && Refused(off, |src|)
  {
    hide Inv, Splice, FullDisk, NoLeak, Tidy, Hung, SlotsIn, RangeMapped, AtHole;
  }

  lemma ShortOk(s: Sys, st2: State, f: nat, src: seq<Byte>, i: nat, moved: nat)
    requires f < |s.ftable| && f < |s.held| && i <= moved < |src| && i % MAXCHUNK == 0 && moved - i < MAXCHUNK
    requires s.held[f] < |s.st.files| && s.st.files[s.held[f]].File? && s.ftable[f].off + i < 0x1_0000_0000
    requires Written(s.st, st2, s.held[f], Splice(s.st.files[s.held[f]].bytes, s.ftable[f].off, src[..moved]))
    requires Filled(s.st, st2, s.held[f], s.ftable[f].off, |src|, moved)
    requires FullDisk(st2) && AtHole(st2, s.held[f], s.ftable[f].off + moved)
    requires !Refused(s.ftable[f].off + i, Min(|src| - i, MAXCHUNK))
    ensures WroteOk(s, Moved(s.(st := st2), f, ToUint(s.ftable[f].off + moved)), f, src, i, moved)
  {
    hide Inv, Splice, FullDisk, NoLeak, Tidy, RefsKept, Filled, AtHole, Written;
    var bytes := Splice(s.st.files[s.held[f]].bytes, s.ftable[f].off, src[..moved]);
    WrittenItself(s.st, st2, s.held[f], bytes);
    WrittenFiles(s.st, st2, s.held[f], bytes);
  }

  lemma WrittenFiles(st: State, st': State, t: nat, bytes: seq<Byte>)
    requires Written(st, st', t, bytes)
    ensures t < |st.files| && st.files[t].File? && st'.files == st.files[t := st.files[t].(bytes := bytes)]
  {
    hide Inv, NoLeak, Tidy, RefsKept;
  }

  lemma RefusedOk(s: Sys, st2: State, f: nat, src: seq<Byte>, i: nat)
    requires f < |s.ftable| && f < |s.held| && i < |src| && i % MAXCHUNK == 0
    requires Chunks(s.st, st2, s.held[f], s.ftable[f].off, src, i)
    requires s.ftable[f].off + i < 0x1_0000_0000 && Refused(s.ftable[f].off + i, Min(|src| - i, MAXCHUNK))
    ensures WroteOk(s, Moved(s.(st := st2), f, ToUint(s.ftable[f].off + i)), f, src, i, i)
  {
    hide Inv, Splice, FullDisk, NoLeak, Tidy, RefsKept, Filled, AtHole, Written;
    ChunksWritten(s, st2, f, src, i);
    ChunksFiles(s, st2, f, src, i);
  }

  lemma ChunksFiles(s: Sys, st1: State, f: nat, src: seq<Byte>, i: nat)
    requires f < |s.ftable| && f < |s.held| && Chunks(s.st, st1, s.held[f], s.ftable[f].off, src, i)
    ensures var (t, off) := (s.held[f], s.ftable[f].off);
      && t < |s.st.files| && s.st.files[t].File?
      && st1.files == s.st.files[t := s.st.files[t].(bytes :=
           if i == 0 then s.st.files[t].bytes else Splice(s.st.files[t].bytes, off, src[..i]))]
  {
    hide Inv, NoLeak, Tidy, Splice, Filled, RefsKept;
  }

  lemma CompleteOk(s: Sys, s1: Sys, f: nat, src: seq<Byte>)
    requires InChunks(s, s1, f, src, |src|)
    ensures WroteOk(s, s1, f, src, |src|, |src|)
  {
    hide Inv, Splice, FullDisk, NoLeak, Tidy, RefsKept, AtHole, Written, Hung, SlotsIn, RangeMapped;
    ChunksWritten(s, s1.st, f, src, |src|);
    ChunksFiles(s, s1.st, f, src, |src|);
    assert src[..|src|] == src;
  }

  lemma ChunksBound(s: Sys, st1: State, f: nat, src: seq<Byte>, i: nat)
    requires f < |s.ftable| && f < |s.held| && i > 0 && Chunks(s.st, st1, s.held[f], s.ftable[f].off, src, i)
    ensures s.ftable[f].off + i <= MAXBYTES
  {
    hide Written, Splice, Filled;
  }

  lemma ChunksWritten(s: Sys, st1: State, f: nat, src: seq<Byte>, i: nat)
    requires f < |s.ftable| && f < |s.held| && Chunks(s.st, st1, s.held[f], s.ftable[f].off, src, i)
    ensures Written(s.st, st1, s.held[f], BytesOf(st1.files, s.held[f]))
  {
    hide Inv, NoLeak, Tidy, Splice, Filled, RefsKept;
  }

  /** filewrite on an inode.  `moved` bytes are in the file and the offset has moved as far,
      but a chunk that came out short is not counted in the result.  Blocks have come into use
      on the way to the range alone; and it falls short only where a block is missing on a
      full disk, or where the rest of the range is refused. */
  ghost predicate WroteOk(s: Sys, s': Sys, f: nat, src: seq<Byte>, r: int, moved: nat)
  {
    && f < |s.ftable| && f < |s.held| && f < |s'.ftable| && s.held[f] < |s.st.files| && s.st.files[s.held[f]].File?
    && var (e, i) := (s.ftable[f], s.held[f]);
       && moved <= |src| && r == (if moved == |src| then moved else moved - moved % MAXCHUNK)
       && (moved > 0 ==> !Refused(e.off, Min(|src|, MAXCHUNK)))
       && s' == Moved(s.(st := s'.st), f, s'.ftable[f].off) && s'.ftable[f].off == e.off + moved
       && s'.st.files == (if src == [] || Refused(e.off, Min(|src|, MAXCHUNK)) then s.st.files
            else s.st.files[i := s.st.files[i].(bytes := Splice(s.st.files[i].bytes, e.off, src[..moved]))])
       && Filled(s.st, s'.st, i, e.off, |src|, moved)
       && (moved < |src| ==> Refused(e.off + moved, Min(|src| - moved, MAXCHUNK))
                             || (FullDisk(s'.st) && AtHole(s'.st, i, e.off + moved)))
       && Written(s.st, s'.st, i, BytesOf(s'.st.files, i))
  }

  ghost predicate FileWriteOk(s: Sys, s': Sys, f: nat, src: seq<Byte>, n: int, r: int, moved: nat)
  {
    && f < |s.ftable| && n <= |src|
    && var e := s.ftable[f];
       if !e.writable then r == -EBADF && s' == s
       else if e.typ == FdDevice then r == -EINVAL && s' == s
       else WroteOk(s, s', f, if n < 0 then [] else src[..n], r, moved)
  }

  lemma EntryFacts(s: Sys, f: nat)
    requires SysOk(s) && f < |s.ftable| && s.ftable[f].ref > 0
    ensures |s.ftable| == |s.held| == NFILE && s.ftable[f].typ != FdNone && Inv(s.st, 0)
    ensures var (t, ip) := (s.held[f], s.ftable[f].ip);
      && Cached(s.st.itable, s.st.slots, t) && s.st.slots[t] == ip && ip < |s.st.itable| && s.st.itable[ip].valid
      && s.st.itable[ip].ref > 0
      && s.st.itable[ip].inum == t && 0 < t < |s.st.files| && s.st.files[t].File?
      && s.st.itable[ip].d.size == |s.st.files[t].bytes|
  {
    hide Inv, NsOk, Accounted, IsDirFile;
    assert EntryOk(s.st, s.ftable[f], s.held[f], multiset(s.ofile)[f]);
    HeldFacts(s.st, s.held[f]);
    TypeOfFile(s.st, s.held[f]);
    SlotsOfReferenced(s.st);
  }

  lemma ChunksStart(s: Sys, f: nat, src: seq<Byte>)
    requires SysOk(s) && f < NFILE && |s.ftable| == NFILE && s.ftable[f].ref > 0
    ensures InChunks(s, s, f, src, 0)
  {
    hide Inv, NsOk, TablesOk, Hung, SlotsIn;
    EntryFacts(s, f);
    LengthsAgree(s.st);
    FilledStart(s.st, s.held[f], s.ftable[f].off, |src|);
    SameRefsKept(s.st, s.st);
  }

  /** In the loop of filewrite the file is still referenced and loaded. */
  lemma ChunksFacts(s: Sys, s1: Sys, f: nat, src: seq<Byte>, i: nat)
    requires SysOk(s) && f < |s.ftable| && s.ftable[f].ref > 0 && InChunks(s, s1, f, src, i)
    ensures s.ftable[f].off + i < 0x1_0000_0000
    ensures s1 == Moved(s.(st := s1.st), f, s.ftable[f].off + i)
    ensures f < |s.held| && Inv(s1.st, 0)
    ensures LoadedAt(s1.st, s.held[f], s.ftable[f].ip)
  {
    hide Inv, NsOk, TablesOk, NoLeak, Tidy, Splice, Filled;
    EntryFacts(s, f);
    assert Cached(s1.st.itable, s1.st.slots, s.held[f]);
    SlotsOfReferenced(s1.st);
  }

  /** Inode `t` is loaded, in entry `ip`. */
  ghost predicate LoadedAt(st: State, t: nat, ip: nat)
  {
    && t in st.slots && st.slots[t] == ip && Cached(st.itable, st.slots, t)
    && ip < |st.itable| && st.itable[ip].valid && st.itable[ip].ref > 0
  }

  /** Writing keeps the tables, whatever is written; */
  lemma WrittenKeepsTables(s: Sys, st': State, f: nat, o: Uint)
    requires Inv(s.st, 0) && TablesOk(s) && f < NFILE && |s.held| == NFILE
    requires Written(s.st, st', s.held[f], BytesOf(st'.files, s.held[f]))
    ensures Inv(st', 0) && TablesOk(Moved(s.(st := st'), f, o))
  {
    CwdIsDir(s);
    assert IsDirFile(st'.files, s.c) by { hide Inv, TablesOk, RefsKept, NoLeak, Tidy; }
    hide Inv, TablesOk, RefsKept, NoLeak, Tidy, IsDirFile;
    HoldNothing(s.st);
    HoldAfterKeep(s.st, s.st, st', multiset{});
    Carried(s, st', multiset{});
    assert s.loose + multiset{} == s.loose;
    MovedKeeps(s.(st := st'), f, o);
  }

  /** ... and it keeps the server in order, as long as it is no directory that is written. */
  lemma WrittenKeepsSys(s: Sys, st': State, f: nat, o: Uint)
    requires SysOk(s) && f < NFILE && |s.held| == NFILE
    requires Written(s.st, st', s.held[f], BytesOf(st'.files, s.held[f])) && !IsDirFile(s.st.files, s.held[f])
    ensures SysOk(Moved(s.(st := st'), f, o))
  {
    hide Inv, TablesOk, LinksOk, DirOk, Cached, RefsKept, NoLeak, Tidy;
    WrittenKeepsTables(s, st', f, o);
    var t := s.held[f];
    LengthsAgree(st');
    RootIsNot(s.st, t);
    NsAfterBytes(s.st, st', t, BytesOf(st'.files, t));
  }

  lemma RootIsNot(st: State, t: nat)
    requires NsOk(st) && !IsDirFile(st.files, t)
    ensures t != ROOTINO && ROOTINO in st.solid
  {
    hide RootMap, DirOk;
    assert IsDirFile(st.files, ROOTINO);
  }

  lemma ReadKeepsSys(s: Sys, st': State, f: nat, n: Uint, dst: seq<Byte>)
    requires SysOk(s) && f < NFILE && |s.held| == NFILE && |s.ftable| == NFILE
    requires ReadOk(s.st, st', s.held[f], s.ftable[f].off, n, dst)
    ensures SysOk(Moved(s.(st := st'), f, ToUint(s.ftable[f].off + |dst|)))
    ensures |dst| == 0 ==> SysOk(s.(st := st'))
    ensures s.ftable[f].off + |dst| < 0x1_0000_0000 || |dst| == 0
  {
    hide Inv, TablesOk, LinksOk, DirOk, Cached, NoLeak, Tidy;
    HoldNothing(s.st);
    SameRefsKept(s.st, st');
    HoldAfterKeep(s.st, s.st, st', multiset{});
    NsAfterLook(s.st, st', multiset{});
    CwdIsDir(s);
    Carried(s, st', multiset{});
    assert s.loose + multiset{} == s.loose;
    MovedKeeps(s.(st := st'), f, ToUint(s.ftable[f].off + |dst|));
  }

  lemma SpliceTwice(c: seq<Byte>, off: nat, a: seq<Byte>, b: seq<Byte>)
    ensures Splice(Splice(c, off, a), off + |a|, b) == Splice(c, off, a + b)
  {
  }

  /** filewrite writes everything just when the disk has as many free blocks as are missing on
      the way to the range. */
  lemma WroteFitsIff(s: Sys, s': Sys, f: nat, src: seq<Byte>, r: int, moved: nat)
    requires f < |s.ftable| && f < |s.held| && Inv(s.st, 0) && Inv(s'.st, 0) && WroteOk(s, s', f, src, r, moved)
    requires !Refused(s.ftable[f].off, |src|)
    ensures moved <= |src| && (r == |src| <==> moved == |src|)
    ensures r == |src| <==> |Wanted(s.st, s.held[f], SlotsIn(s.ftable[f].off, |src|))| <= |Unmarked(s.st)|
  {
    hide Inv, Hung, SlotsIn, FullDisk, AtHole, WroteOk, Grew, Wanted, Unmarked, RangeMapped;
    var (i, off) := (s.held[f], s.ftable[f].off);
    WroteGrew(s, s', f, src, r, moved);
    WroteFilled(s, s', f, src, r, moved);
    FitsIff(s.st, s'.st, i, off, |src|, moved == |src|, off + moved);
  }

  /** ... which is just when one writei of all the bytes would; and then the outcome is the
      same. */
  lemma ChunkedIsWhole(s: Sys, s': Sys, f: nat, src: seq<Byte>, r: int, moved: nat, whole: State, w: int)
    requires f < |s.ftable| && f < |s.held| && Inv(s.st, 0) && Inv(s'.st, 0) && WroteOk(s, s', f, src, r, moved)
      && src != []
    requires !Refused(s.ftable[f].off, |src|) && WriteOk(s.st, whole, s.held[f], s.ftable[f].off, src, w)
    ensures r == |src| <==> w == |src|
    ensures r == |src| ==> s'.st.files == whole.files && FileOffset(s', f) == s.ftable[f].off + |src|
  {
    hide Inv, SlotsIn, WroteOk, WriteOk, Wanted, Unmarked;
    WroteFitsIff(s, s', f, src, r, moved);
    WriteFitsIff(s.st, whole, s.held[f], s.ftable[f].off, src, w);
    if r == |src| { WholeAlike(s, s', f, src, r, moved, whole); }
  }

  function FileOffset(s: Sys, f: nat): nat { if f < |s.ftable| then s.ftable[f].off else 0 }

  lemma WroteFilled(s: Sys, s': Sys, f: nat, src: seq<Byte>, r: int, moved: nat)
    requires WroteOk(s, s', f, src, r, moved) && !Refused(s.ftable[f].off, |src|)
    ensures moved <= |src| && (r == |src| <==> moved == |src|)
    ensures s.held[f] < |s'.st.live| && RangeMapped(s'.st.data, s'.st.live[s.held[f]], s.ftable[f].off, moved)
    ensures moved < |src| ==> FullDisk(s'.st) && AtHole(s'.st, s.held[f], s.ftable[f].off + moved)
  {
    hide Hung, SlotsIn, FullDisk, AtHole, Splice, NoLeak, Tidy, RangeMapped, Written;
  }

  lemma WholeAlike(s: Sys, s': Sys, f: nat, src: seq<Byte>, r: int, moved: nat, whole: State)
    requires WroteOk(s, s', f, src, r, moved) && src != [] && r == |src| == moved && !Refused(s.ftable[f].off, |src|)
    requires WriteOk(s.st, whole, s.held[f], s.ftable[f].off, src, |src|)
    ensures s'.st.files == whole.files && FileOffset(s', f) == s.ftable[f].off + |src|
  {
    hide Inv, Filled, FullDisk, AtHole, Splice, NoLeak, Tidy, RangeMapped, Hung, SlotsIn;
    assert src[..|src|] == src;
  }

  lemma WroteGrew(s: Sys, s': Sys, f: nat, src: seq<Byte>, r: int, moved: nat)
    requires Inv(s.st, 0) && Inv(s'.st, 0) && WroteOk(s, s', f, src, r, moved)
    ensures Grew(s.st, s'.st, s.held[f], SlotsIn(s.ftable[f].off, |src|))
  {
    LengthsAgree(s.st);
    TypeOfFile(s.st, s.held[f]);
    LengthsAgree(s'.st);
    TypeOfFile(s'.st, s.held[f]);
    hide TableOk, FilesOk, Owned, Hung, SlotsIn, RangeMapped, Splice, FullDisk, AtHole, NoLeak, Tidy;
  }

  const SEEK_SET: int := 0
  const SEEK_CUR: int := 1
  const SEEK_END: int := 2

  /** lseek: the offset may leave the file, and the result is the offset read as an int. */
  function SeekTo(e: OpenFile, size: nat, off: int, whence: int): Uint
  {
    if whence == SEEK_CUR then ToUint(e.off + off) else if whence == SEEK_SET then ToUint(off) else ToUint(size + off)
  }

  /** The server after fileseek; nothing happens for a device or an unknown whence. */
  function Seeked(s: Sys, f: nat, off: int, whence: int): Sys
  {
    if CanSeek(s, f, whence) && s.held[f] < |s.st.files| && s.st.files[s.held[f]].File?
    then Moved(s, f, SeekTo(s.ftable[f], |s.st.files[s.held[f]].bytes|, off, whence)) else s
  }

  predicate CanSeek(s: Sys, f: nat, whence: int)
  {
    f < |s.ftable| && f < |s.held| && s.ftable[f].typ == FdInode && 0 <= whence <= 2
  }

  ghost predicate SeekOk(s: Sys, s': Sys, f: nat, off: int, whence: int, r: int)
  {
    s' == Seeked(s, f, off, whence) && f < |s'.ftable|
      && r == if CanSeek(s, f, whence) then ToInt(s'.ftable[f].off) else -1
  }

  /** pread and pwrite: a seek, which may be refused after the offset has moved, and then a
      read or a write at the new offset. */
  ghost predicate PReadOk(s: Sys, s': Sys, fd: int, n: int, off: int, r: int, dst: seq<Byte>)
  {
    var (f, s1) := (Behind(s, fd), Seeked(s, Behind(s, fd), off, SEEK_SET));
    if f == NFILE then r == -EBADF && s' == s
    else if !CanSeek(s, f, SEEK_SET) || ToUint(off) >= 0x8000_0000 then r == -EINVAL && s' == s1
    else FileReadOk(s1, s', f, n, r, dst)
  }

  ghost predicate PWriteOk(s: Sys, s': Sys, fd: int, src: seq<Byte>, n: int, off: int, r: int, moved: nat)
  {
    var (f, s1) := (Behind(s, fd), Seeked(s, Behind(s, fd), off, SEEK_SET));
    if f == NFILE then r == -1 && s' == s
    else if !CanSeek(s, f, SEEK_SET) || ToUint(off) >= 0x8000_0000 then r == -EINVAL && s' == s1
    else FileWriteOk(s1, s', f, src, n, r, moved)
  }

  lemma SeekKeepsSys(s: Sys, f: nat, off: int, whence: int)
    requires SysOk(s)
    ensures SysOk(Seeked(s, f, off, whence))
  {
    hide Inv, NsOk, TablesOk;
    if CanSeek(s, f, whence) && s.held[f] < |s.st.files| && s.st.files[s.held[f]].File? {
      TableSizes(s);
      MovedKeeps(s, f, SeekTo(s.ftable[f], |s.st.files[s.held[f]].bytes|, off, whence));
    }
  }

  lemma TableSizes(s: Sys)
    requires TablesOk(s)
    ensures |s.ftable| == |s.held| == NFILE && |s.ofile| == NOFILE && forall k {:trigger s.ofile[k]} ::
      0 <= k < NOFILE ==> s.ofile[k] <= NFILE
  {
  }

  /** unlink keeps the open files. */
  lemma UnlinkKeepsSys(s: Sys, st': State, start: nat, els: seq<Name>, r: int)
    requires SysOk(s) && UnlinkOk(s.st, st', start, els, r)
    ensures SysOk(s.(st := st'))
  {
    hide Inv, NsOk, TablesOk, Holding, RootMap, ResolveParent;
    if UnlinkRefuses(s.st.files, start, els) { NsAfterWalk(s.st, st', multiset{}); }
    CwdIsDir(s);
    OneDirectory(s.st, st', s.c);
    HoldingFacts(s.st, st', multiset{});
    Carried(s, st', multiset{});
    assert s.loose + multiset{} == s.loose;
  }

  function LinkCount(files: seq<File>, t: nat): Short { if t < |files| && files[t].File? then files[t].nlink else 0 }

  lemma LinkKeepsSysIff(s: Sys, st': State, t: nat, start: nat, els: seq<Name>, r: int)
    requires SysOk(s) && LinkCallOk(s.st, st', t, start, els, r)
    ensures SysOk(s.(st := st')) <==> r != 0 || LinkCount(s.st.files, t) < 0x7fff
  {
    hide Inv, TablesOk, Holding, LinksOk, LinkCallOk, IsDir, IsDirFile;
    CwdIsDir(s);
    RootOfSys(s);
    LinkedParts(s.st, st', t, start, els, r);
    HoldingFacts(s.st, st', multiset{});
    if r != 0 { NsAfterLook(s.st, st', multiset{}); }
    Carried(s, st', multiset{});
    assert s.loose + multiset{} == s.loose;
  }

  /** What of it the tables depend on. */
  lemma LinkedParts(st: State, st': State, t: nat, start: nat, els: seq<Name>, r: int)
    requires LinkCallOk(st, st', t, start, els, r) && IsDirFile(st.files, ROOTINO)
    ensures Holding(st, st', multiset{}) && IsDirFile(st'.files, ROOTINO)
    ensures r != 0 ==> st'.files == st.files && st'.solid == st.solid
    ensures r == 0 ==> (NsOk(st') <==> LinkCount(st.files, t) < 0x7fff)
  {
    hide Holding, RootMap, NameRefused, HasPlace, Extended, Tidy, NsOk;
  }

  lemma RootOfSys(s: Sys)
    requires SysOk(s)
    ensures s.c == ROOTINO && ROOTINO in s.st.slots && IsDirFile(s.st.files, ROOTINO)
  {
    assert IsDirFile(s.st.files, s.c) <==> s.c == ROOTINO;
    hide Inv, NsOk, Accounted;
  }

  function NoFiles(): seq<OpenFile> { seq(NFILE, _ => OpenFile(FdNone, 0, false, false, 0, 0, 0)) }

  lemma RootAllocated(st: State)
    requires Inv(st, 0) && NsOk(st)
    ensures Allocated(st.live, ROOTINO)
  {
    hide LinksOk, Inv;
    LengthsAgree(st);
    TypeOfFile(st, ROOTINO);
  }

  lemma Started(st: State, st': State, ip: nat)
    requires Inv(st, 0) && NsOk(st) && st.slots == map[] && GetOk(st, st', ROOTINO, ip)
    ensures SysOk(Sys(st', NoFiles(), seq(NOFILE, _ => NFILE), seq(NFILE, _ => 0), ip, ROOTINO, multiset{}))
    ensures SameDisk(st, st') && st'.slots.Keys == {ROOTINO}
  {
    var s' := Sys(st', NoFiles(), seq(NOFILE, _ => NFILE), seq(NFILE, _ => 0), ip, ROOTINO, multiset{});
    hide Inv, LinksOk, DirOk;
    HoldNothing(st);
    HoldAfterGet(st, st, st', multiset{}, ROOTINO, ip);
    assert multiset{} + multiset{ROOTINO} == multiset{ROOTINO};
    NsAfterWalk(st, st', multiset{ROOTINO});
    ReferencedIffPositive(st);
    forall f: nat | f < NFILE ensures EntryOk(st', s'.ftable[f], s'.held[f], multiset(s'.ofile)[f]) {
      assert f !in multiset(s'.ofile);
    }
    forall j: nat | j != 0
      ensures RefOf(st'.itable, st'.slots, j) == multiset(s'.held)[j] + if j == ROOTINO then 1 else 0
    {
      assert j !in multiset(s'.held);
      assert RefOf(st'.itable, st'.slots, j) == RefOf(st.itable, st.slots, j) + multiset{ROOTINO}[j];
    }
    assert IsDirFile(st'.files, ROOTINO);
  }

  class Server {
    const fs: FileSystem
    var ftable: seq<OpenFile>
    var ofile: seq<nat>
    var cwd: nat
    ghost var held: seq<nat>
    ghost var c: nat
    ghost var loose: multiset<nat>

    ghost function S(): Sys
      reads this, fs, fs.store
    {
      Sys(fs.St(), ftable, ofile, held, cwd, c, loose)
    }

    ghost predicate Valid()
      reads this, fs, fs.store
    {
      fs.store.Valid() && fs.store.pins == multiset{} && SysOk(S())
    }

    /** The server at its start: nothing open, and "/" is the current directory. */
    constructor (f: FileSystem)
      requires f.store.Valid() && f.store.pins == multiset{} && Inv(f.St(), 0) && NsOk(f.St()) && f.slots == map[]
      modifies f
      ensures Valid() && fs == f && SameDisk(old(f.St()), fs.St()) && fs.slots.Keys == {ROOTINO}
      ensures loose == multiset{} && |ofile| == NOFILE && forall fd :: 0 <= fd < NOFILE ==> ofile[fd] == NFILE
    {
      fs := f;
      ftable, ofile := NoFiles(), seq(NOFILE, _ => NFILE);
      held, loose, c, cwd := seq(NFILE, _ => 0), multiset{}, ROOTINO, 0;
      new;
      hide Views, Inv, NsOk, GetOk, TablesOk;
      ghost var st := fs.St();
      RootAllocated(st);
      cwd := fs.IGet(ROOTINO);
      Started(st, fs.St(), cwd);
    }

    // ---------- file.c ----------

    /** filealloc: the first entry with no reference, or NFILE. */
    method FileAlloc() returns (f: nat)
      requires |ftable| == NFILE
      modifies this`ftable
      ensures f <= NFILE && forall g :: 0 <= g < f ==> old(ftable)[g].ref != 0
      ensures f < NFILE ==> old(ftable)[f].ref == 0
      ensures ftable == if f < NFILE then old(ftable)[f := old(ftable)[f].(ref := 1)] else old(ftable)
    {
      f := 0;
      while f < NFILE
        invariant f <= NFILE && ftable == old(ftable) && forall g :: 0 <= g < f ==> ftable[g].ref != 0
      {
        if ftable[f].ref == 0 {
          ftable := ftable[f := ftable[f].(ref := 1)];
          return;
        }
        f := f + 1;
      }
    }

    /** filedup. */
    method FileDup(f: nat)
      requires f < |ftable| && ftable[f].ref >= 1
      modifies this`ftable
      ensures ftable == old(ftable)[f := old(ftable)[f].(ref := old(ftable)[f].ref + 1)]
    {
      ftable := ftable[f := ftable[f].(ref := ftable[f].ref + 1)];
    }

    /** fileclose: an entry of type FD_NONE, as open leaves it when it finds no descriptor,
        puts no inode. */
    method FileClose(f: nat, ghost i: nat)
      requires f < |ftable| && ftable[f].ref >= 1 && fs.store.Valid() && |fs.store.pins| + 3 <= NBUF && Inv(fs.St(), 0)
      requires ftable[f].ref == 1 && ftable[f].typ != FdNone ==> fs.At(ftable[f].ip, i)
      modifies this`ftable, fs, fs.store
      ensures fs.store.Valid() && fs.store.pins == old(fs.store.pins)
      ensures old(ftable)[f].ref > 1 ==> ftable == old(ftable)[f := old(ftable)[f].(ref := old(ftable)[f].ref - 1)]
      ensures old(ftable)[f].ref == 1 ==> ftable == old(ftable)[f := old(ftable)[f].(ref := 0, typ := FdNone)]
      ensures if old(ftable)[f].ref > 1 || old(ftable)[f].typ == FdNone then fs.St() == old(fs.St())
              else PutOk(old(fs.St()), fs.St(), i) && fs.St() == AfterPut(old(fs.St()), i)
    {
      hide Views, Inv, PutOk, AfterPut;
      var ff := ftable[f];
      ftable := ftable[f := ftable[f].(ref := ftable[f].ref - 1)];
      if ftable[f].ref > 0 { return; }
      ftable := ftable[f := ftable[f].(typ := FdNone)];
      if ff.typ == FdInode || ff.typ == FdDevice {
        SlotsOfReferenced(fs.St());
        fs.IPut(ff.ip);
      }
    }

    // ---------- descriptors ----------

    method ArgFd(fd: int) returns (f: nat)
      requires |ofile| == NOFILE && forall k :: 0 <= k < NOFILE ==> ofile[k] <= NFILE
      ensures f == Behind(S(), fd)
    {
      f := if fd < 0 || fd >= NOFILE then NFILE else ofile[fd];
    }

    /** fdalloc; descriptors 0, 1 and 2 are never used. */
    method FdAlloc(f: nat) returns (fd: int)
      requires |ofile| == NOFILE
      modifies this`ofile
      ensures LowestFree(old(ofile), fd) && ofile == if fd == -1 then old(ofile) else old(ofile)[fd := f]
    {
      fd := 3;
      while fd < NOFILE
        invariant 3 <= fd <= NOFILE && ofile == old(ofile) && forall k :: 3 <= k < fd ==> ofile[k] != NFILE
      {
        if ofile[fd] == NFILE {
          ofile := ofile[fd := f];
          return;
        }
        fd := fd + 1;
      }
      fd := -1;
    }

    /** Creates the file, or finds and locks it. */
    method Look(path: seq<Byte>, creat: bool) returns (ip: nat, ghost t: nat)
      requires Valid() && NoNul(path) && OpenRoom(fs.slots.Keys, fs.files, StartOf(path, c), Elements(path), creat)
      modifies fs, fs.store
      ensures fs.store.Valid() && fs.store.pins == multiset{}
      ensures Looked(old(fs.St()), fs.St(), StartOf(path, c), Elements(path), creat, ip, t)
    {
      hide Views, Inv, NsOk, TreeOk, Walked, Standing, Elements, CreateOk, CreateRoom, NameRoom;
      ghost var st := fs.St();
      IsReady(S());
      if creat {
        hide TablesOk;
        ip, t := Create(fs, path, T_FILE, 0, 0, cwd, c);
      } else {
        ReadyFacts(st, c);
        var name;
        ip, name := NameX(fs, path, false, cwd, c);
        t := Resolve(st.files, StartOf(path, c), Elements(path));
        hide TablesOk;
        NamedFacts(st, fs.St(), t, ip);
        if ip != NINODE {
          var isDir := LockAndTest(fs, ip, t, st);
        }
      }
    }

    /** open: a descriptor, or -1.  The invariant survives exactly when it did not truncate
        a file that had a double-indirect block before the call, which `dangles` tells. */
    method Open(path: seq<Byte>, omode: int)
      returns (r: int, ip: nat, dangles: bool, ghost f: nat, ghost t: nat, ghost st1: State)
      requires Valid() && NoNul(path)
      requires OpenRoom(fs.slots.Keys, fs.files, StartOf(path, c), Elements(path), Flag(omode, O_CREAT))
      modifies this`ftable, this`ofile, this`held, this`loose, fs, fs.store
      ensures fs.store.Valid() && fs.store.pins == multiset{}
      ensures OpenOk(old(S()), S(), st1, StartOf(path, c), Elements(path), omode, r, f, ip, t)
      ensures dangles <==> r >= 0 && !Flag(omode, O_CREAT) && Dangles(old(fs.St()), t, omode)
      ensures Valid() <==> !dangles
    {
      hide Views, Inv, NsOk, SysOk, Elements, Looked, PutOk, Truncates, BadDevice, AtOpen, Attached, NotOpened,
           TablesOk, OpenRoom;
      ghost var (s, start, els, creat) := (S(), StartOf(path, c), Elements(path), Flag(omode, O_CREAT));
      ip, t := Look(path, Flag(omode, O_CREAT));
      st1, f, dangles := fs.St(), NFILE, false;
      if ip == NINODE {
        LookedNothing(s, st1, start, els, creat, t);
        loose := loose + Forgotten(s.st.files, start, els, creat);
        return -1, ip, dangles, f, t, st1;
      }
      LookedFile(s, st1, start, els, creat, ip, t);
      AtOpenFacts(s, st1, ip, t);
      LookedInode(s, st1, start, els, Flag(omode, O_CREAT), ip, t, omode);
      var d := fs.itable[ip].d;
      if d.typ == T_DEVICE && (d.major < 0 || d.major >= NDEV) {
        fs.IPut(ip);
        LetGo(s, st1, fs.St(), ip, t);
        assert BadDevice(st1.files[t]) && !Truncates(st1.files[t], omode) by {
          IsBadDevice(st1.files[t], d.typ, d.major, omode);
        }
        return -1, ip, dangles, f, t, st1;
      }
      IsGoodDevice(st1.files[t], d.typ, d.major, omode);
      r, f := Attach(ip, omode, s, st1, t);
      if r >= 0 && Flag(omode, O_TRUNC) && d.typ == T_FILE {
        ghost var s1 := S();
        TruncIsSound(s, s1, st1, ip, t, omode, r, f);
        dangles := d.addrs[NDIRECT + 1] != 0;
        fs.ITrunc(ip, t);
      }
      if r < 0 { FailedAlike(s, S(), st1, t, omode, f); }
    }

    /** The fields of the new open file. */
    method Fill(e: nat, ip: nat, omode: int)
      requires e < |ftable| && ftable[e].ref == 1 && ip < |fs.itable|
      modifies this`ftable
      ensures ftable ==
        old(ftable)[e := NewEntry(old(ftable)[e], omode, fs.itable[ip].d.typ, fs.itable[ip].d.major, ip)]
    {
      if fs.itable[ip].d.typ == T_DEVICE {
        ftable := ftable[e := ftable[e].(typ := FdDevice, major := fs.itable[ip].d.major)];
      } else {
        ftable := ftable[e := ftable[e].(typ := FdInode, off := 0)];
      }
      ftable := ftable[e := ftable[e].(ip := ip)];
      ftable := ftable[e := ftable[e].(readable := !Flag(omode, O_WRONLY),
        writable := Flag(omode, O_WRONLY) || Flag(omode, O_RDWR))];
    }

    /** filealloc, fdalloc, and the fields of the new open file. */
    method Attach(ip: nat, omode: int, ghost s: Sys, ghost st1: State, ghost t: nat) returns (r: int, ghost f: nat)
      requires fs.store.Valid() && fs.store.pins == multiset{} && S() == s.(st := st1) && AtOpen(s, st1, ip, t)
      modifies this`ftable, this`ofile, this`held, fs, fs.store
      ensures fs.store.Valid() && fs.store.pins == multiset{} && Attached(s, S(), st1, st1, t, omode, r, f)
        && SysOk(S())
      ensures r >= -1 && (r == -1 || S().st == st1)
    {
      hide Views, Inv, SysOk, PutOk, AtOpen, Attached, EntryOk, Opened, NotOpened;
      AtOpenFacts(s, st1, ip, t);
      AttachFacts(s, st1, ip, t);
      var e := FileAlloc();
      f, r := e, -1;
      if e != NFILE { r := FdAlloc(e); }
      if e == NFILE || r < 0 {
        if e != NFILE { FileClose(e, 0); }
        assert ftable == s.ftable by { assert s.ftable[e].(ref := 1).(ref := 0, typ := FdNone) == s.ftable[e]; }
        fs.IPut(ip);
        LetGo(s, st1, fs.St(), ip, t);
        assert S() == s.(st := fs.St());
        NoDescriptor(s, S(), st1, ip, t, omode, f);
        return;
      }
      Fill(e, ip, omode);
      held := held[e := t];
      HasDescriptor(s, S(), st1, ip, t, omode, r, f);
    }

    // ---------- read, write and seek ----------

    /** fileread; no device driver is registered. */
    method FileRead(f: nat, n: int) returns (r: int, dst: seq<Byte>)
      requires Valid() && f < |ftable| && ftable[f].ref > 0
      modifies this`ftable, fs, fs.store
      ensures Valid() && FileReadOk(old(S()), S(), f, n, r, dst)
    {
      hide Views, Inv, SysOk, ReadOk, IsDirFile;
      ghost var s := S();
      EntryFacts(s, f);
      dst := [];
      if !ftable[f].readable { return -EBADF, dst; }
      if ftable[f].typ == FdDevice { return -EINVAL, dst; }
      fs.ILock(ftable[f].ip);
      dst := fs.ReadI(ftable[f].ip, ftable[f].off, ToUint(n), held[f]);
      if |dst| > 0 {
        ftable := ftable[f := ftable[f].(off := ToUint(ftable[f].off + |dst|))];
      }
      ReadKeepsSys(s, fs.St(), f, ToUint(n), dst);
      r := |dst|;
    }

    /** Everything but, perhaps, the name space is in order. */
    ghost predicate TablesValid()
      reads this, fs, fs.store
    {
      fs.store.Valid() && fs.store.pins == multiset{} && Inv(fs.St(), 0) && TablesOk(S())
    }

    /** filewrite: at most three blocks at a time.  Writing to a directory, which nothing
        forbids, may leave the name space in disorder. */
    method FileWrite(f: nat, src: seq<Byte>, n: int) returns (r: int, ghost moved: nat)
      requires Valid() && f < |ftable| && ftable[f].ref > 0 && n <= |src|
      modifies this`ftable, fs, fs.store
      ensures TablesValid() && FileWriteOk(old(S()), S(), f, src, n, r, moved)
      ensures f < |held| && (old(ftable)[f].writable ==> !IsDirFile(old(fs.files), held[f])) ==> Valid()
    {
      hide Views, Inv, SysOk, WriteOk, IsDirFile, WroteOk;
      ghost var s := S();
      EntryFacts(s, f);
      SysGives(s);
      moved := 0;
      if !ftable[f].writable { return -EBADF, moved; }
      if ftable[f].typ == FdDevice { return -EINVAL, moved; }
      r, moved := WriteChunks(f, src, n, s);
    }

    /** One round of filewrite's loop: ilock, writei of the next chunk, and the offset. */
    method WriteChunk(f: nat, piece: seq<Byte>, ghost s: Sys, ghost src: seq<Byte>, ghost i: nat) returns (w: int)
      requires fs.store.Valid() && fs.store.pins == multiset{} && SysOk(s)
      requires f < |s.ftable| && s.ftable[f].ref > 0 && f < |s.held|
      requires InChunks(s, S(), f, src, i) && i < |src| && piece == ChunkAt(src, i)
      modifies this`ftable, fs, fs.store
      ensures fs.store.Valid() && fs.store.pins == multiset{} && w <= |piece|
      ensures if w == |piece| then InChunks(s, S(), f, src, i + |piece|) else WroteOk(s, S(), f, src, i, i + Max0(w))
    {
      hide Views, Inv, SysOk, WriteOk, IsDirFile, WroteOk, Chunks, Written, ChunkAt, InChunks;
      ghost var s1 := S();
      EntryFacts(s, f);
      ChunksFacts(s, s1, f, src, i);
      ChunkFacts(src, i, 0);
      fs.ILock(ftable[f].ip);
      w := fs.WriteI(ftable[f].ip, piece, ftable[f].off, held[f]);
      if w > 0 { ftable := ftable[f := ftable[f].(off := ToUint(ftable[f].off + w))]; }
      ChunkDone(s, s1, S(), f, src, i, w);
    }

    /** The loop of filewrite. */
    method WriteChunks(f: nat, src: seq<Byte>, n: int, ghost s: Sys) returns (r: int, ghost moved: nat)
      requires Valid() && S() == s && f < |ftable| && ftable[f].ref > 0
      requires ftable[f].typ == FdInode && n <= |src|
      modifies this`ftable, fs, fs.store
      ensures TablesValid() && WroteOk(s, S(), f, if n < 0 then [] else src[..n], r, moved)
      ensures f < |held| && !IsDirFile(s.st.files, held[f]) ==> Valid()
    {
      hide Views, Inv, SysOk, IsDirFile, WroteOk, InChunks, TablesOk, ChunkAt;
      EntryFacts(s, f);
      ghost var all := if n < 0 then [] else src[..n];
      var i := 0;
      ChunksStart(s, f, all);
      while i < n
        invariant 0 <= i <= |all| && fs.store.Valid() && fs.store.pins == multiset{} && InChunks(s, S(), f, all, i)
      {
        var n1 := if n - i > MAXCHUNK then MAXCHUNK else n - i;
        PieceIsChunk(src, n, i);
        var w := WriteChunk(f, src[i..i + n1], s, all, i);
        if w != n1 {
          AfterChunks(s, S(), f, all, i, i + Max0(w));
          return i, i + Max0(w);
        }
        i := i + w;
      }
      CompleteOk(s, S(), f, all);
      AfterChunks(s, S(), f, all, i, i);
      return i, i;
    }

    /** fileseek; the source asserts that a seek from the end does not go past it. */
    method FileSeek(f: nat, off: int, whence: int) returns (r: int)
      requires Valid() && f < |ftable| && ftable[f].ref > 0
      requires whence == SEEK_END && f < |held| && held[f] < |fs.files| && fs.files[held[f]].File? ==>
        ToUint(|fs.files[held[f]].bytes| + off) <= |fs.files[held[f]].bytes|
      modifies this`ftable
      ensures Valid() && SeekOk(old(S()), S(), f, off, whence, r)
    {
      hide Views, Inv, SysOk;
      EntryFacts(S(), f);
      SeekKeepsSys(S(), f, off, whence);
      if ftable[f].typ != FdInode { return -1; }
      if whence == SEEK_CUR {
        ftable := ftable[f := ftable[f].(off := ToUint(ftable[f].off + off))];
      } else if whence == SEEK_SET {
        ftable := ftable[f := ftable[f].(off := ToUint(off))];
      } else if whence == SEEK_END {
        ftable := ftable[f := ftable[f].(off := ToUint(fs.itable[ftable[f].ip].d.size + off))];
        assert ftable[f].off <= fs.itable[ftable[f].ip].d.size;
      } else {
        return -1;
      }
      r := ToInt(ftable[f].off);
    }

    method Read(fd: int, n: int) returns (r: int, dst: seq<Byte>)
      requires Valid()
      modifies this`ftable, fs, fs.store
      ensures Valid()
      ensures if Behind(old(S()), fd) == NFILE then r == -1 && dst == [] && S() == old(S())
        else FileReadOk(old(S()), S(), Behind(old(S()), fd), n, r, dst)
    {
      hide Views, Inv, SysOk, FileReadOk;
      DescriptorFacts(S(), fd);
      var f := ArgFd(fd);
      if f == NFILE { return -1, []; }
      r, dst := FileRead(f, n);
    }

    method Write(fd: int, src: seq<Byte>, n: int) returns (r: int, ghost moved: nat)
      requires Valid() && n <= |src|
      modifies this`ftable, fs, fs.store
      ensures TablesValid() && (NoDirectoryWritten(old(S()), fd) ==> Valid())
      ensures if Behind(old(S()), fd) == NFILE then r == -1 && S() == old(S())
        else FileWriteOk(old(S()), S(), Behind(old(S()), fd), src, n, r, moved)
    {
      hide Views, Inv, SysOk, FileWriteOk;
      DescriptorFacts(S(), fd);
      SysGives(S());
      moved := 0;
      var f := ArgFd(fd);
      if f == NFILE { return -1, moved; }
      r, moved := FileWrite(f, src, n);
    }

    method PRead(fd: int, n: int, off: int) returns (r: int, dst: seq<Byte>)
      requires Valid()
      modifies this`ftable, fs, fs.store
      ensures Valid() && PReadOk(old(S()), S(), fd, n, off, r, dst)
    {
      hide Views, Inv, SysOk, FileReadOk;
      DescriptorFacts(S(), fd);
      var f := ArgFd(fd);
      if f == NFILE { return -EBADF, []; }
      EntryFacts(S(), f);
      var at := FileSeek(f, off, SEEK_SET);
      if at < 0 { return -EINVAL, []; }
      r, dst := FileRead(f, n);
    }

    method PWrite(fd: int, src: seq<Byte>, n: int, off: int) returns (r: int, ghost moved: nat)
      requires Valid() && n <= |src|
      modifies this`ftable, fs, fs.store
      ensures TablesValid() && (NoDirectoryWritten(old(S()), fd) ==> Valid())
      ensures PWriteOk(old(S()), S(), fd, src, n, off, r, moved)
    {
      hide Views, Inv, SysOk, FileWriteOk, IsDirFile;
      DescriptorFacts(S(), fd);
      SysGives(S());
      moved := 0;
      var f := ArgFd(fd);
      if f == NFILE { return -1, moved; }
      EntryFacts(S(), f);
      var at := FileSeek(f, off, SEEK_SET);
      if at < 0 { return -EINVAL, moved; }
      r, moved := FileWrite(f, src, n);
    }

    /** unlink; what happens to the files is UnlinkOk, and open files keep theirs. */
    method Remove(path: seq<Byte>) returns (r: int)
      requires Valid() && NoNul(path) && UnlinkRoom(fs.slots.Keys, fs.files, StartOf(path, c), Elements(path))
      modifies fs, fs.store
      ensures Valid() && UnlinkOk(old(fs.St()), fs.St(), StartOf(path, c), Elements(path), r)
    {
      hide Views, Inv, NsOk, Elements, UnlinkOk, UnlinkRoom, TablesOk;
      ghost var s := S();
      IsReady(s);
      r := Unlink(fs, path, cwd, c);
      UnlinkKeepsSys(s, fs.St(), StartOf(path, c), Elements(path), r);
    }

    /** link; the invariant survives unless the link count was at its greatest. */
    method Link(old_: seq<Byte>, new_: seq<Byte>) returns (r: int, ghost t: nat)
      requires Valid() && NoNul(old_) && NoNul(new_)
      requires LinkRoom(fs.slots.Keys, fs.files, StartOf(old_, c), Elements(old_), StartOf(new_, c), Elements(new_))
      modifies fs, fs.store
      ensures fs.store.Valid() && fs.store.pins == multiset{}
      ensures t == Resolve(old(fs.files), StartOf(old_, c), Elements(old_))
      ensures LinkCallOk(old(fs.St()), fs.St(), t, StartOf(new_, c), Elements(new_), r)
      ensures Valid() <==> r != 0 || LinkCount(old(fs.files), t) < 0x7fff
    {
      hide Views, Inv, NsOk, Elements, LinkCallOk, LinkRoom, TablesOk;
      ghost var s := S();
      IsReady(s);
      r, t := Sysfile.Link(fs, old_, new_, cwd, c);
      LinkKeepsSysIff(s, fs.St(), t, StartOf(new_, c), Elements(new_), r);
    }

    method Dup(fd: int) returns (r: int)
      requires Valid()
      modifies this`ofile, this`ftable
      ensures Valid() && DupOk(old(S()), S(), fd, r)
    {
      hide Views, Inv, SysOk;
      ghost var s := S();
      DescriptorFacts(s, fd);
      var f := ArgFd(fd);
      if f == NFILE { return -1; }
      r := FdAlloc(f);
      if r < 0 {
        assert S() == s;
        return;
      }
      FileDup(f);
      DupKeepsSys(s, r, f);
    }

    method Close(fd: int) returns (r: int)
      requires Valid()
      modifies this`ofile, this`ftable, this`held, fs, fs.store
      ensures Valid() && CloseOk(old(S()), S(), fd, r)
    {
      hide Views, Inv, NsOk, EntryOk, Accounted, PutOk, IsDirFile, AfterPut;
      ghost var s := S();
      var f := ArgFd(fd);
      if f == NFILE { return -1; }
      FdFacts(s, fd);
      ofile := ofile[fd := NFILE];
      FileClose(f, held[f]);
      if s.ftable[f].ref > 1 {
        DroppedKeeps(s, fd);
      } else {
        ClosedLast(s, fs.St(), fd);
        held := held[f := 0];
      }
      r := 0;
    }
  }

  /** Clients do not write to a directory, though they may open it for writing. */
  ghost predicate NoDirectoryWritten(s: Sys, fd: int)
  {
    var f := Behind(s, fd);
    f < |s.ftable| && f < |s.held| && s.ftable[f].writable ==> !IsDirFile(s.st.files, s.held[f])
  }

  /** The chunk as cut from the buffer. */
  lemma PieceIsChunk(src: seq<Byte>, n: int, i: nat)
    requires i < n <= |src|
    ensures src[i..i + if n - i > MAXCHUNK then MAXCHUNK else n - i] == ChunkAt(src[..n], i)
  {
  }

  lemma DupKeepsSys(s: Sys, fd: nat, f: nat)
    requires SysOk(s) && f < NFILE && f < |s.ftable| && s.ftable[f].ref > 0 && LowestFree(s.ofile, fd)
    ensures SysOk(Duped(s, fd, f))
  {
    hide Inv, NsOk, TablesOk;
    DupedKeeps(s, fd, f);
  }

  lemma SysGives(s: Sys)
    requires SysOk(s)
    ensures Inv(s.st, 0) && TablesOk(s)
  {
  }

  lemma AfterChunks(s: Sys, s': Sys, f: nat, src: seq<Byte>, i: int, moved: nat)
    requires SysOk(s) && f < |s.held| && WroteOk(s, s', f, src, i, moved)
    ensures WroteOk(s, s', f, src, i, moved) && Inv(s'.st, 0) && TablesOk(s')
    ensures !IsDirFile(s.st.files, s.held[f]) ==> SysOk(s')
  {
    assert s' == Moved(s.(st := s'.st), f, s'.ftable[f].off) by {
      hide Filled, Written, FullDisk, AtHole, Splice, NoLeak, Tidy;
    }
    hide Inv, NsOk, TablesOk, Written, IsDirFile, WroteOk, Moved;
    TableSizes(s);
    WrittenKeepsTables(s, s'.st, f, s'.ftable[f].off);
    if !IsDirFile(s.st.files, s.held[f]) { WrittenKeepsSys(s, s'.st, f, s'.ftable[f].off); }
  }

  lemma DescriptorFacts(s: Sys, fd: int)
    requires SysOk(s)
    ensures |s.ftable| == |s.held| == NFILE && |s.ofile| == NOFILE && forall k {:trigger s.ofile[k]} ::
      0 <= k < NOFILE ==> s.ofile[k] <= NFILE
    ensures Behind(s, fd) != NFILE ==> Behind(s, fd) < NFILE && s.ftable[Behind(s, fd)].ref > 0
  {
    hide Inv, NsOk, TablesOk;
    TableSizes(s);
    if Behind(s, fd) != NFILE { FdFacts(s, fd); }
  }

  lemma IsReady(s: Sys)
    requires TablesOk(s) && NsOk(s.st)
    ensures s.c in s.st.slots && s.st.slots[s.c] == s.cwd && IsDirFile(s.st.files, s.c)
  {
  }

  lemma ClosedLast(s: Sys, st': State, fd: nat)
    requires SysOk(s) && fd < NOFILE && s.ofile[fd] < NFILE && s.ftable[s.ofile[fd]].ref == 1
    requires PutOk(s.st, st', s.held[s.ofile[fd]])
    ensures SysOk(Loosened(s, fd).(st := st', loose := s.loose))
  {
    hide Inv, NsOk, PutOk, EntryOk, Accounted, IsDirFile;
    var i := s.held[s.ofile[fd]];
    FdFacts(s, fd);
    LoosenedKeeps(s, fd);
    NsAfterPut(s.st, st', i);
    PutLooseKeeps(Loosened(s, fd), st', i);
    assert s.loose + multiset{i} - multiset{i} == s.loose;
    PutGivesInv(s.st, st', i);
  }

  lemma PutGivesInv(st: State, st': State, i: nat)
    requires PutOk(st, st', i)
    ensures Inv(st', 0)
  {
    hide Inv;
  }
}
