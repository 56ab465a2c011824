/** System calls on names (xv6fs/src/sysfile.c): unlink, create and link, over the name
    space of module Links. */
module Sysfile {
  import opened Layout
  import opened BlockTree
  import opened BlockStore
  import opened Invariant
  import opened Directory
  import opened FileSystem
  import opened DirectoryOps
  import opened Path
  import opened References
  import opened Namei
  import opened Links

  /** What every call here needs: the invariants, and the current directory's table entry. */
  ghost predicate Ready(fs: FileSystem, cwd: nat, c: nat)
    reads fs, fs.store
  {
    && fs.store.Valid() && |fs.store.pins| + 3 <= NBUF
    && Inv(fs.St(), 0) && NsOk(fs.St())
    && c in fs.slots && fs.slots[c] == cwd && IsDirFile(fs.files, c)
  }

  // ---------- room in the inode table ----------

  /** unlink finds a table entry for every inode it goes through. */
  predicate UnlinkRoom(keys: set<nat>, files: seq<File>, start: nat, els: seq<Name>)
  {
    NameRoom(keys, files, start, els, true)
    && (UnlinkRefuses(files, start, els) || RoomFor(keys, RootMap(files)[els[|els| - 1]]))
  }

  /** So does create, for the file there is or the one it makes. */
  predicate CreateRoom(keys: set<nat>, files: seq<File>, start: nat, els: seq<Name>)
  {
    NameRoom(keys, files, start, els, true)
    && (ResolveParent(files, start, els) == 0 || els == []
        || if els[|els| - 1] in RootMap(files) then RoomFor(keys, RootMap(files)[els[|els| - 1]])
           else |keys| < NINODE || NoInode(files))
  }

  /** There is room for a new name to be looked at. */
  predicate EnterRoom(keys: set<nat>, files: seq<File>, start: nat, els: seq<Name>)
  {
    NameRoom(keys, files, start, els, true)
    && (ResolveParent(files, start, els) == 0 || els == [] || LookupRoom(files, keys, ROOTINO, els[|els| - 1]))
  }

  /** link finds room, keeping the entry of the old file while it looks at the new name. */
  predicate LinkRoom(keys: set<nat>, files: seq<File>, start: nat, els: seq<Name>, start': nat, els': seq<Name>)
  {
    NameRoom(keys, files, start, els, false)
    && var t := Resolve(files, start, els);
       t == 0 || IsDirFile(files, t) || EnterRoom(keys + {t}, files, start', els')
  }

  /** While there is an empty entry, a walk has room. */
  lemma {:induction false} RootRoom(keys: set<nat>, files: seq<File>, cur: nat, els: seq<Name>, parent: bool)
    requires LinksOk(files) && ROOTINO in keys && |keys| < NINODE
    ensures WalkRoom(keys, files, cur, els, parent)
    decreases |els|
  {
    hide DirMap, RootMap;
    if els != [] && IsDirFile(files, cur) {
      assert cur == ROOTINO && keys + {cur} == keys;
      RootRoom(keys, files, LookupIn(files, cur, els[0]), els[1..], parent);
    }
  }

  /** One empty entry is enough for each call but link, */
  lemma EmptyEntrySuffices(keys: set<nat>, files: seq<File>, start: nat, els: seq<Name>)
    requires LinksOk(files) && ROOTINO in keys && |keys| < NINODE
    ensures NameRoom(keys, files, start, els, false) && NameRoom(keys, files, start, els, true)
    ensures UnlinkRoom(keys, files, start, els) && CreateRoom(keys, files, start, els)
  {
    RootRoom(keys, files, start, els, false);
    RootRoom(keys, files, start, els, true);
    hide LinksOk, WalkRoom, RootMap, ResolveParent;
  }

  /** ... and two for that. */
  lemma TwoEntriesSuffice(keys: set<nat>, files: seq<File>, start: nat, els: seq<Name>, start': nat, els': seq<Name>)
    requires LinksOk(files) && ROOTINO in keys && |keys| + 1 < NINODE
    ensures LinkRoom(keys, files, start, els, start', els')
  {
    var t := Resolve(files, start, els);
    assert |keys + {t}| <= |keys| + 1;
    RootRoom(keys, files, start, els, false);
    RootRoom(keys + {t}, files, start', els', true);
    hide LinksOk, WalkRoom, RootMap, ResolveParent, Resolve, DirMap;
  }

  /** No reference moved since `st`, and nothing visible changed. */
  ghost predicate Untouched(st: State, st': State) { Walked(st, st', multiset{}) }

  // ---------- unlink ----------

  /** The file `f` was, with one link less: gone if that was the last and it is not open. */
  function Unlinked(f: File, open: bool): File
  {
    if !f.File? then f else if Bumped(f.nlink, -1) == 0 && !open then Free else f.(nlink := Bumped(f.nlink, -1))
  }

  /** unlink removed name `n` of file `t` from the root, and one link from the file.  If the
      file is gone with it, exactly its blocks are free again. */
  ghost predicate UnlinkDone(st: State, st': State, n: Name)
  {
    && n in RootMap(st.files) && n != DOT && n != DOTDOT
    && var t := RootMap(st.files)[n];
    && Holding(st, st', multiset{}) && NsOk(st') && t < |st.files|
    && RootMap(st'.files) == RootMap(st.files) - {n} && |BytesOf(st'.files, ROOTINO)| == |BytesOf(st.files, ROOTINO)|
    && st'.files == Relinked(st.files, BytesOf(st'.files, ROOTINO), t, Unlinked(st.files[t], t in st.slots))
    && st'.marked ==
       (if Unlinked(st.files[t], t in st.slots) == Free then st.marked - BlocksOf(st.owner, t) else st.marked)
    && (Tidy(st) ==> Tidy(st'))
  }

  /** Why unlink may refuse: no such parent, a dot, or no such name. */
  predicate UnlinkRefuses(files: seq<File>, start: nat, els: seq<Name>)
  {
    ResolveParent(files, start, els) == 0 || els == [] || els[|els| - 1] == DOT || els[|els| - 1] == DOTDOT
    || els[|els| - 1] !in RootMap(files)
  }

  ghost predicate UnlinkOk(st: State, st': State, start: nat, els: seq<Name>, r: int)
  {
    if UnlinkRefuses(st.files, start, els) then r == -1 && Untouched(st, st')
    else r == 0 && UnlinkDone(st, st', els[|els| - 1])
  }

  /** The end of unlink for the file: a link and a reference less. */
  ghost predicate LinkDropped(st: State, st1: State, st2: State, held: multiset<nat>, t: nat)
  {
    && t < |st1.files| && Holding(st, st2, held - multiset{t})
    && st2.files == st1.files[t := Unlinked(st1.files[t], t in st.slots || held[t] > 1)]
    && (t in st.slots ==> Cached(st2.itable, st2.slots, t))
    && st2.solid == (if st2.files[t] == Free then st1.solid - {t} else st1.solid)
    && st2.marked == (if st2.files[t] == Free then st1.marked - BlocksOf(st1.owner, t) else st1.marked)
    && (Tidy(st1) ==> Tidy(st2))
  }

  method DropLink(fs: FileSystem, ip: nat, ghost t: nat, ghost st: State, ghost held: multiset<nat>)
    requires fs.store.Valid() && |fs.store.pins| + 3 <= NBUF && fs.At(ip, t)
    requires Inv(st, 0) && Holding(st, fs.St(), held) && t in held
    modifies fs, fs.store
    ensures fs.store.Valid() && fs.store.pins == old(fs.store.pins)
    ensures LinkDropped(st, old(fs.St()), fs.St(), held, t)
  {
    hide Views, Inv, FieldsOk, PutOk, LinkDropped, Holding;
    ghost var st1 := fs.St();
    HeldLoaded(st, st1, held, t);
    var d := fs.itable[ip].d;
    fs.SetFields(ip, d.major, d.minor, Bumped(d.nlink, -1), t);
    ghost var st2 := fs.St();
    AfterSetFields(st, st1, st2, held, t, d.major, d.minor, Bumped(d.nlink, -1));
    HeldLoaded(st, st2, held, t);
    fs.IPut(ip);
    DroppedFacts(st, st1, st2, fs.St(), held, t);
  }

  lemma HeldLoaded(st: State, st1: State, held: multiset<nat>, t: nat)
    requires Holding(st, st1, held) && t in held && Cached(st1.itable, st1.slots, t)
    ensures Inv(st1, 0) && t in st1.slots && st1.slots[t] < |st1.itable|
    ensures st1.itable[st1.slots[t]].ref > 0 && st1.itable[st1.slots[t]].inum == t
    ensures t < |st1.files| && st1.files[t].File?
    ensures var (d, f) := (st1.itable[st1.slots[t]].d, st1.files[t]);
      d.typ == f.typ && d.major == f.major && d.minor == f.minor && d.nlink == f.nlink && d.size == |f.bytes|
  {
    hide Inv;
    HeldIsReferenced(st, st1, held, t);
    HeldFacts(st1, t);
    TypeOfFile(st1, t);
  }

  lemma AfterSetFields(st: State, st1: State, st2: State, held: multiset<nat>, t: nat, major: Short, minor: Short,
                       nlink: Short)
    requires Holding(st, st1, held) && FieldsOk(st1, st2, t, major, minor, nlink) && Cached(st1.itable, st1.slots, t)
    ensures Holding(st, st2, held) && Cached(st2.itable, st2.slots, t) && st2.slots == st1.slots
      && st2.solid == st1.solid
    ensures t < |st1.files| && st1.files[t].File? && OnlyInode(st1, st2, t) && (Tidy(st1) ==> Tidy(st2))
    ensures st2.files == st1.files[t := st1.files[t].(major := major, minor := minor, nlink := nlink)]
  {
    if Tidy(st1) { OnlyInodeTidy(st1, st2, t); }
    hide Inv, Holding, NoLeak;
    SameRefsKept(st1, st2);
    HoldAfterKeep(st, st1, st2, held);
  }

  lemma DroppedFacts(st: State, st1: State, st2: State, st3: State, held: multiset<nat>, t: nat)
    requires Inv(st, 0) && Holding(st, st2, held) && t in held && Cached(st2.itable, st2.slots, t) && PutOk(st2, st3, t)
    requires t < |st1.files| && st1.files[t].File?
    requires st2.files == st1.files[t := st1.files[t].(nlink := Bumped(st1.files[t].nlink, -1))]
    requires st2.solid == st1.solid && st2.marked == st1.marked && st2.owner == st1.owner && (Tidy(st1) ==> Tidy(st2))
    ensures LinkDropped(st, st1, st3, held, t)
  {
    hide Inv, Holding, PutOk, BlocksOf, LastPut, Tidy, Cached;
    PutIsTidy(st2, st3, t);
    HoldAfterPut(st, st2, st3, held, t);
    LastPutIff(st, st2, held, t);
    if t in st.slots {
      StillThere(st, st3, held - multiset{t}, t);
      StaysLoaded(st, st2, st3, held, t, t);
    }
  }

  lemma PutIsTidy(st: State, st': State, i: nat)
    requires PutOk(st, st', i)
    ensures Tidy(st) ==> Tidy(st')
  {
    hide Inv, BlocksOf, LastPut, RefsMoved, NoLeak;
  }

  lemma StillThere(st: State, st1: State, held: multiset<nat>, t: nat)
    requires Holding(st, st1, held) && t in st.slots
    ensures t in st1.slots && st1.slots[t] == st.slots[t]
  {
    hide Inv;
  }

  /** The root directory is held and loaded, nothing visible has changed since `st`. */
  ghost predicate AtRoot(st: State, st1: State, dp: nat)
  {
    && Inv(st, 0) && NsOk(st) && ROOTINO in st.slots && Walked(st, st1, multiset{ROOTINO})
    && Cached(st1.itable, st1.slots, ROOTINO) && st1.slots[ROOTINO] == dp
  }

  lemma AtRootFacts(st: State, st1: State, dp: nat)
    requires AtRoot(st, st1, dp)
    ensures Inv(st1, 0) && ROOTINO in st1.slots && st1.slots[ROOTINO] == dp < |st1.itable|
    ensures st1.itable[dp].ref > 0 && st1.itable[dp].inum == ROOTINO
    ensures st1.itable[dp].valid && IsDir(st1, ROOTINO)
    ensures TargetsOk(st1.files, BytesOf(st1.files, ROOTINO)) && st1.slots.Keys == st.slots.Keys
    ensures st1.files == st.files && st1.solid == st.solid && IsDirFile(st1.files, ROOTINO)
      && Standing(st, st1, ROOTINO)
  {
    hide Inv, Holding, IsDir, TargetsLinked, TargetsOk, DirMap;
    HeldLoaded(st, st1, multiset{ROOTINO}, ROOTINO);
    HoldingKeys(st, st1, multiset{ROOTINO});
    NsGivesTree(st);
    WalkedTree(st, st1, multiset{ROOTINO}, ROOTINO);
    assert IsDirFile(st.files, ROOTINO);
  }

  /** Finds and locks the parent: the root is the only directory there is. */
  method LockParent(fs: FileSystem, path: seq<Byte>, cwd: nat, ghost c: nat) returns (dp: nat, name: seq<Byte>)
    requires NoNul(path) && Ready(fs, cwd, c)
    requires NameRoom(fs.slots.Keys, fs.files, StartOf(path, c), Elements(path), true)
    modifies fs, fs.store
    ensures fs.store.Valid() && fs.store.pins == old(fs.store.pins)
    ensures if ResolveParent(old(fs.files), StartOf(path, c), Elements(path)) == 0
      then dp == NINODE && Untouched(old(fs.St()), fs.St())
            else dp < NINODE && AtRoot(old(fs.St()), fs.St(), dp)
    ensures dp < NINODE ==> Elements(path) != [] && Cut(name, DIRSIZ) == Elements(path)[|Elements(path)| - 1]
  {
    hide Views, Inv, Walked, Standing, NsOk, TreeOk, Cut, Elements, NameRoom;
    ghost var (st, start) := (fs.St(), StartOf(path, c));
    ReadyFacts(st, c);
    dp, name := NameX(fs, path, true, cwd, c);
    ghost var t := ResolveParent(st.files, start, Elements(path));
    if dp == NINODE { return; }
    ParentIsRoot(st, start, Elements(path));
    ghost var st1 := fs.St();
    NamedFacts(st, st1, t, dp);
    var isDir := LockAndTest(fs, dp, ROOTINO, st);
    AtRootNow(st, st1, fs.St(), dp);
  }

  lemma ReadyFacts(st: State, c: nat)
    requires Inv(st, 0) && NsOk(st) && c in st.slots && IsDirFile(st.files, c)
    ensures TreeOk(st) && Linked(st.files, ROOTINO) && 0 !in st.slots && c == ROOTINO
  {
    assert IsDirFile(st.files, c) <==> c == ROOTINO;
    hide Inv, IsDir, TreeOk, Linked, IsDirFile;
    NsGivesTree(st);
    ReferencedIffPositive(st);
  }

  lemma ParentIsRoot(st: State, start: nat, els: seq<Name>)
    requires NsOk(st) && ResolveParent(st.files, start, els) != 0
    ensures ResolveParent(st.files, start, els) == ROOTINO
  {
    hide IsDir, Linked, RootMap, IsDirFile;
    ParentIsDir(st.files, start, els);
  }

  lemma {:induction false} ParentIsDir(files: seq<File>, cur: nat, els: seq<Name>)
    requires ResolveParent(files, cur, els) != 0
    ensures IsDirFile(files, ResolveParent(files, cur, els))
    decreases |els|
  {
    hide DirMap;
    if |els| > 1 { ParentIsDir(files, LookupIn(files, cur, els[0]), els[1..]); }
  }

  lemma NamedFacts(st: State, st1: State, t: nat, ip: nat)
    requires Named(st, st1, t, ip)
    ensures if t == 0 then ip == NINODE && Walked(st, st1, multiset{})
      else ip < NINODE && Standing(st, st1, t) && t in st1.slots && st1.slots[t] == ip
  {
    hide Walked, TreeOk, Inv;
  }

  lemma AtRootNow(st: State, st1: State, st2: State, dp: nat)
    requires Inv(st, 0) && NsOk(st) && ROOTINO in st.slots
    requires Standing(st, st2, ROOTINO) && Cached(st2.itable, st2.slots, ROOTINO)
    requires st2.slots[ROOTINO] == dp
    ensures AtRoot(st, st2, dp)
  {
    hide Inv, Walked, TreeOk;
  }

  /** After dirlookup found a file and ilock loaded it: both it and the root are held. */
  ghost predicate AtFile(st: State, st1: State, dp: nat, ip: nat, t: nat)
  {
    && AtRootShape(st, st1, dp) && Walked(st, st1, multiset{ROOTINO} + multiset{t})
    && Cached(st1.itable, st1.slots, t) && st1.slots[t] == ip
  }

  ghost predicate AtRootShape(st: State, st1: State, dp: nat)
  {
    Inv(st, 0) && NsOk(st) && Cached(st1.itable, st1.slots, ROOTINO) && st1.slots[ROOTINO] == dp
  }

  /** Looks a name up in the root and locks what it finds. */
  method LookupAndLock(fs: FileSystem, dp: nat, name: seq<Byte>, ghost st: State)
    returns (found: bool, ip: nat, off: nat)
    requires fs.store.Valid() && AtRoot(st, fs.St(), dp) && |fs.store.pins| + 3 <= NBUF
    requires LookupRoom(st.files, st.slots.Keys, ROOTINO, Cut(name, DIRSIZ))
    modifies fs, fs.store
    ensures fs.store.Valid() && fs.store.pins == old(fs.store.pins)
    ensures Sought(st, fs.St(), dp, Cut(name, DIRSIZ), found, ip, off)
  {
    hide Views, Inv, AtRoot, LookupOk, LockOk, IsDir, TargetsOk, Cut, Standing, Sought, LookupRoom;
    ghost var st1 := fs.St();
    AtRootFacts(st, st1, dp);
    found, ip, off := DirLookup(fs, dp, name, ROOTINO);
    ghost var st2 := fs.St();
    SoughtFirst(st, st1, st2, dp, Cut(name, DIRSIZ), found, ip, off);
    if found {
      fs.ILock(ip);
      SoughtLocked(st, st1, st2, fs.St(), dp, Cut(name, DIRSIZ), ip, off);
    }
  }

  ghost predicate Sought(st: State, st1: State, dp: nat, n: Name, found: bool, ip: nat, off: nat)
  {
    if !found then n !in RootMap(st.files) && AtRoot(st, st1, dp)
    else n in RootMap(st.files) && AtFile(st, st1, dp, ip, RootMap(st.files)[n]) && EntryFound(st.files, n, off)
  }

  ghost predicate EntryFound(files: seq<File>, n: Name, off: nat)
  {
    off % RECSIZE == 0 && off / RECSIZE < Count(BytesOf(files, ROOTINO))
    && EntryAt(BytesOf(files, ROOTINO), off / RECSIZE).inum != 0
    && EntryAt(BytesOf(files, ROOTINO), off / RECSIZE).name == n
  }

  lemma SoughtFirst(st: State, st1: State, st2: State, dp: nat, n: Name, found: bool, ip: nat, off: nat)
    requires AtRoot(st, st1, dp) && LookupOk(st1, st2, ROOTINO, n, found, ip, off)
    ensures !found ==> Sought(st, st2, dp, n, false, ip, off)
    ensures found ==> Inv(st2, 0) && ip < NINODE && |st2.itable| == NINODE && st2.itable[ip].ref > 0
    ensures found ==>
      n in RootMap(st.files) && st2.itable[ip].inum == RootMap(st.files)[n] && EntryFound(st.files, n, off)
    ensures found ==> GetOk(st1, st2, RootMap(st.files)[n], ip)
  {
    hide Inv, EntryAt, GetOk, Holding, DirMap, DirOk, TargetsOk;
    AtRootFacts(st, st1, dp);
    LookupIsTheMap(st1, st2, ROOTINO, n, found, ip, off);
    if found { GetOkFacts(st1, st2, DirMap(BytesOf(st1.files, ROOTINO))[n], ip); }
  }

  lemma SoughtLocked(st: State, st1: State, st2: State, st3: State, dp: nat, n: Name, ip: nat, off: nat)
    requires AtRoot(st, st1, dp) && n in RootMap(st.files) && GetOk(st1, st2, RootMap(st.files)[n], ip)
    requires LockOk(st2, st3, RootMap(st.files)[n]) && EntryFound(st.files, n, off)
    ensures Sought(st, st3, dp, n, true, ip, off)
  {
    var t := RootMap(st.files)[n];
    hide Inv, Holding, RootMap, EntryFound, NsOk, GetOk, LockOk;
    AtRootFacts(st, st1, dp);
    HoldAfterGet(st, st1, st2, multiset{ROOTINO}, t, ip);
    HoldNothing(st1);
    HoldAfterGet(st1, st1, st2, multiset{}, t, ip);
    HoldAfterLock(st, st2, st3, multiset{ROOTINO} + multiset{t}, t);
    HoldAfterLock(st1, st2, st3, multiset{} + multiset{t}, t);
    StaysAt(st1, st3, multiset{} + multiset{t}, ROOTINO);
  }

  lemma StaysAt(st: State, st1: State, held: multiset<nat>, i: nat)
    requires Holding(st, st1, held) && Cached(st.itable, st.slots, i)
    ensures i in st.slots && i in st1.slots && st1.slots[i] == st.slots[i] && Cached(st1.itable, st1.slots, i)
  {
    hide Inv;
  }

  /** unlink once the entry is found.  Its directory branches cannot be taken, since the
      only directory has no names but the dots. */
  method UnlinkFound(fs: FileSystem, dp: nat, ip: nat, off: nat, ghost st: State, ghost n: Name)
    requires fs.store.Valid() && |fs.store.pins| + 3 <= NBUF && n != DOT && n != DOTDOT
    requires n in RootMap(st.files) && AtFile(st, fs.St(), dp, ip, RootMap(st.files)[n]) && EntryFound(st.files, n, off)
    modifies fs, fs.store
    ensures fs.store.Valid() && fs.store.pins == old(fs.store.pins)
    ensures UnlinkDone(st, fs.St(), n)
  {
    hide Views, Inv, AtFile, EntryFound, EraseOk, PutOk, LinkDropped, UnlinkDone, IsDir, RootMap, Holding;
    ghost var (st1, t) := (fs.St(), RootMap(st.files)[n]);
    AtFileFacts(st, st1, dp, ip, n, off);
    assert fs.itable[ip].d.nlink >= 1;
    assert fs.itable[ip].d.typ != T_DIR;
    Erase(fs, dp, off, ROOTINO);
    ghost var st2 := fs.St();
    AfterErase(st, st1, st2, dp, ip, n, off);
    fs.IPut(dp);
    ghost var st3 := fs.St();
    AfterRootPut(st, st1, st2, st3, dp, ip, n);
    DropLink(fs, ip, t, st, multiset{t});
    UnlinkFinish(st, st1, st2, st3, fs.St(), n);
  }

  lemma AtFileFacts(st: State, st1: State, dp: nat, ip: nat, n: Name, off: nat)
    requires n != DOT && n != DOTDOT && n in RootMap(st.files)
    requires AtFile(st, st1, dp, ip, RootMap(st.files)[n]) && EntryFound(st.files, n, off)
    ensures Inv(st1, 0) && Inv(st, 0) && NsOk(st) && ROOTINO in st1.slots
    ensures st1.slots[ROOTINO] == dp < |st1.itable| && st1.itable[dp].valid
    ensures IsDir(st1, ROOTINO) && st1.files == st.files && st1.solid == st.solid && off < 0x1_0000_0000
    ensures off % RECSIZE == 0 && off / RECSIZE < Count(BytesOf(st1.files, ROOTINO))
    ensures EntryAt(BytesOf(st1.files, ROOTINO), off / RECSIZE).inum != 0
    ensures EntryAt(BytesOf(st1.files, ROOTINO), off / RECSIZE).name == n
    ensures ip < |st1.itable| && st1.itable[ip].d.nlink >= 1 && st1.itable[ip].d.typ != T_DIR
  {
    var t := RootMap(st.files)[n];
    hide Inv, Holding, RootMap, EntryAt, DirOk;
    BoundHasLinks(st.files, n);
    HeldLoaded(st, st1, multiset{ROOTINO} + multiset{t}, ROOTINO);
    HeldLoaded(st, st1, multiset{ROOTINO} + multiset{t}, t);
    LengthsAgree(st1);
    DirSize(st1, ROOTINO);
  }

  lemma AfterErase(st: State, st1: State, st2: State, dp: nat, ip: nat, n: Name, off: nat)
    requires n != DOT && n != DOTDOT && n in RootMap(st.files) && AtFile(st, st1, dp, ip, RootMap(st.files)[n])
    requires EraseOk(st1, st2, ROOTINO, n)
    ensures var t := RootMap(st.files)[n];
      Holding(st, st2, multiset{ROOTINO} + multiset{t}) && Cached(st2.itable, st2.slots, t)
        && Cached(st2.itable, st2.slots, ROOTINO)
      && st2.slots == st1.slots && Linked(st2.files, ROOTINO) && ROOTINO in st2.solid
    ensures st2.marked == st.marked && st2.owner == st.owner && (Tidy(st) ==> Tidy(st2))
    ensures Inv(st2, 0) && dp < |st2.itable| && st2.itable[dp].ref > 0 && st2.itable[dp].inum == ROOTINO
  {
    var t := RootMap(st.files)[n];
    SameDiskTidy(st, st1);
    hide Inv, Holding, RootMap, DirOk, DirMap, NoLeak;
    HoldAfterKeep(st, st1, st2, multiset{ROOTINO} + multiset{t});
    HeldLoaded(st, st2, multiset{ROOTINO} + multiset{t}, ROOTINO);
  }

  lemma AfterRootPut(st: State, st1: State, st2: State, st3: State, dp: nat, ip: nat, n: Name)
    requires n != DOT && n != DOTDOT && n in RootMap(st.files) && AtFile(st, st1, dp, ip, RootMap(st.files)[n])
    requires Holding(st, st2, multiset{ROOTINO} + multiset{RootMap(st.files)[n]})
    requires Linked(st2.files, ROOTINO) && st2.slots == st1.slots && ROOTINO in st2.solid
    requires Cached(st2.itable, st2.slots, RootMap(st.files)[n]) && PutOk(st2, st3, ROOTINO)
    ensures var t := RootMap(st.files)[n];
      && Holding(st, st3, multiset{t}) && Cached(st3.itable, st3.slots, t) && st3.slots[t] == ip
      && SameDisk(st2, st3)
  {
    hide AtFile, Inv, Holding, RootMap, PutOk, LastPut, NsOk, BlocksOf;
    var t := RootMap(st.files)[n];
    var held := multiset{ROOTINO} + multiset{t};
    AtFileParts(st, st1, dp, ip, t);
    BoundNotRoot(st, n);
    HoldAfterPut(st, st2, st3, held, ROOTINO);
    RootPutLeavesNoTrace(st, st2, st3, held);
    assert held - multiset{ROOTINO} == multiset{t};
    KeptSlot(st, st2, st3, held, ROOTINO, t);
    StaysLoaded(st, st2, st3, held, ROOTINO, t);
  }

  /** Giving the root back changes nothing but its entry. */
  lemma RootPutLeavesNoTrace(st: State, st1: State, st2: State, held: multiset<nat>)
    requires Inv(st, 0) && Holding(st, st1, held) && ROOTINO in held && PutOk(st1, st2, ROOTINO)
    requires Linked(st1.files, ROOTINO) && ROOTINO in st1.solid
    ensures SameDisk(st1, st2)
  {
    hide Inv, PutOk, LastPut, BlocksOf, Holding;
    HoldingFacts(st, st1, held);
    SolidSynced(st1, ROOTINO);
    HoldAfterPut(st, st1, st2, held, ROOTINO);
    PutLeavesNoTrace(st, st1, st2, held, ROOTINO);
  }

  lemma AtFileParts(st: State, st1: State, dp: nat, ip: nat, t: nat)
    requires AtFile(st, st1, dp, ip, t)
    ensures Inv(st, 0) && NsOk(st) && t in st1.slots && st1.slots[t] == ip
  {
    hide Inv, NsOk, Holding;
  }

  lemma BoundNotRoot(st: State, n: Name)
    requires NsOk(st) && n in RootMap(st.files) && n != DOT && n != DOTDOT
    ensures RootMap(st.files)[n] != ROOTINO
  {
    hide RootMap;
  }

  lemma UnlinkFinish(st: State, st1: State, st2: State, st3: State, st4: State, n: Name)
    requires Inv(st, 0) && NsOk(st) && n != DOT && n != DOTDOT && n in RootMap(st.files)
    requires st1.files == st.files && st1.solid == st.solid && EraseOk(st1, st2, ROOTINO, n) && SameDisk(st2, st3)
    requires st2.marked == st.marked && st2.owner == st.owner && (Tidy(st) ==> Tidy(st2))
    requires LinkDropped(st, st3, st4, multiset{RootMap(st.files)[n]}, RootMap(st.files)[n])
    ensures UnlinkDone(st, st4, n)
  {
    hide Inv, Holding, RootMap, EraseOk, LinkDropped, LinksOk, IsDir, Relinked, Unlinked, Tidy, BlocksOf;
    SameDiskTidy(st2, st3);
    var t := RootMap(st.files)[n];
    DroppedMarks(st, st3, st4, t);
    Erased(st1, st2, n);
    UnlinkFiles(st, st1, st2, st3, st4, n);
    var f := Unlinked(st.files[t], t in st.slots);
    UnlinkedFile(st.files, n, t in st.slots);
    UnlinkKeepsLinks(st.files, BytesOf(st2.files, ROOTINO), n, f);
    UnlinkNs(st, st4, n);
  }

  lemma UnlinkedFile(files: seq<File>, n: Name, open: bool)
    requires LinksOk(files) && n in RootMap(files) && n != DOT && n != DOTDOT
    ensures var g := files[RootMap(files)[n]];
      Unlinked(g, open) == g.(nlink := g.nlink - 1) || (g.nlink == 1 && Unlinked(g, open) == Free)
  {
    hide RootMap;
    BoundHasLinks(files, n);
  }

  /** The files after the four steps. */
  lemma UnlinkFiles(st: State, st1: State, st2: State, st3: State, st4: State, n: Name)
    requires NsOk(st) && n != DOT && n != DOTDOT && n in RootMap(st.files)
    requires st1.files == st.files && st1.solid == st.solid && EraseOk(st1, st2, ROOTINO, n)
    requires st3.files == st2.files && st3.solid == st2.solid
    requires LinkDropped(st, st3, st4, multiset{RootMap(st.files)[n]}, RootMap(st.files)[n])
    ensures var t := RootMap(st.files)[n]; var bytes := BytesOf(st2.files, ROOTINO);
      && t < |st.files| && t != ROOTINO
      && st4.files == Relinked(st.files, bytes, t, Unlinked(st.files[t], t in st.slots))
      && BytesOf(st4.files, ROOTINO) == bytes && |bytes| == |BytesOf(st.files, ROOTINO)|
      && DirOk(bytes) && DirMap(bytes) == RootMap(st.files) - {n} == RootMap(st4.files)
      && ROOTINO in st4.solid && IsDirFile(st4.files, ROOTINO)
      && Holding(st, st4, multiset{}) && (t in st.slots ==> Cached(st4.itable, st4.slots, t))
  {
    hide Inv, Holding, DirMap, DirOk, Unlinked, Cached, NsOk, IsDir, Relinked, EraseOk, LinkDropped;
    var t := RootMap(st.files)[n];
    BoundHasLinks(st.files, n) by { NsGivesLinks(st); }
    Erased(st1, st2, n);
    DroppedParts(st, st3, st4, t);
    RelinkedIs(st.files, BytesOf(st2.files, ROOTINO), t, Unlinked(st.files[t], t in st.slots));
  }

  lemma NsGivesLinks(st: State)
    requires NsOk(st)
    ensures LinksOk(st.files)
  {
    hide IsDir;
  }

  lemma Erased(st: State, st': State, n: Name)
    requires EraseOk(st, st', ROOTINO, n)
    ensures ROOTINO < |st.files| && st.files[ROOTINO].File?
    ensures var bytes := BytesOf(st'.files, ROOTINO);
      && st'.files == st.files[ROOTINO := st.files[ROOTINO].(bytes := bytes)] && |bytes| == |BytesOf(st.files, ROOTINO)|
      && DirOk(bytes) && DirMap(bytes) == RootMap(st.files) - {n} && st'.solid == st.solid && ROOTINO in st'.solid
      && IsDirFile(st'.files, ROOTINO)
  {
    hide Inv, DirOk, DirMap, RefsKept;
  }

  lemma DroppedMarks(st: State, st3: State, st4: State, t: nat)
    requires LinkDropped(st, st3, st4, multiset{t}, t)
    ensures t < |st3.files| && (Tidy(st3) ==> Tidy(st4))
    ensures st4.marked == if Unlinked(st3.files[t], t in st.slots) == Free then st3.marked - BlocksOf(st3.owner, t)
                          else st3.marked
  {
    hide Holding, Unlinked, Cached, Tidy, BlocksOf;
  }

  lemma DroppedParts(st: State, st3: State, st4: State, t: nat)
    requires LinkDropped(st, st3, st4, multiset{t}, t) && t != ROOTINO && ROOTINO in st3.solid
    ensures t < |st3.files| && st4.files == st3.files[t := Unlinked(st3.files[t], t in st.slots)]
    ensures Holding(st, st4, multiset{}) && (t in st.slots ==> Cached(st4.itable, st4.slots, t)) && ROOTINO in st4.solid
  {
    hide Holding, Unlinked, Cached;
    assert multiset{t} - multiset{t} == multiset{};
  }

  lemma RelinkedIs(files: seq<File>, bytes: seq<Byte>, t: nat, f: File)
    requires ROOTINO < |files| && files[ROOTINO].File? && t < |files| && t != ROOTINO
    ensures Relinked(files, bytes, t, f) == files[ROOTINO := files[ROOTINO].(bytes := bytes)][t := f]
    ensures BytesOf(Relinked(files, bytes, t, f), ROOTINO) == bytes
    ensures IsDirFile(Relinked(files, bytes, t, f), ROOTINO) == IsDirFile(files, ROOTINO)
  {
  }

  lemma UnlinkNs(st: State, st4: State, n: Name)
    requires NsOk(st) && n in RootMap(st.files) && Holding(st, st4, multiset{}) && LinksOk(st4.files)
    requires var t := RootMap(st.files)[n];
      && t < |st.files| && t != ROOTINO
      && st4.files == Relinked(st.files, BytesOf(st4.files, ROOTINO), t, Unlinked(st.files[t], t in st.slots))
      && (t in st.slots ==> Cached(st4.itable, st4.slots, t))
    requires ROOTINO in st4.solid && IsDirFile(st4.files, ROOTINO) && DirOk(BytesOf(st4.files, ROOTINO))
    ensures NsOk(st4)
  {
    hide Inv, Holding, RootMap, DirOk, LinksOk, Cached;
    HoldingFacts(st, st4, multiset{});
    var t := RootMap(st.files)[n];
    forall i: nat | i < |st4.files| && st4.files[i].File? && st4.files[i].nlink == 0
      ensures Cached(st4.itable, st4.slots, i)
    {
      if i != t { assert st.files[i].File? && st.files[i].nlink == 0; }
    }
  }

  lemma HoldingFacts(st: State, st1: State, held: multiset<nat>)
    requires Holding(st, st1, held)
    ensures Inv(st1, 0) && |st1.live| == |st1.inodes| == |st1.files|
    ensures forall j: nat {:trigger Cached(st1.itable, st1.slots, j)} :: Cached(st.itable, st.slots, j) ==>
      Cached(st1.itable, st1.slots, j)
  {
    hide Inv;
    LengthsAgree(st1);
  }

  /** unlink: 0 when the name was removed, -1 when there is nothing to remove. */
  method Unlink(fs: FileSystem, path: seq<Byte>, cwd: nat, ghost c: nat) returns (r: int)
    requires NoNul(path) && Ready(fs, cwd, c) && UnlinkRoom(fs.slots.Keys, fs.files, StartOf(path, c), Elements(path))
    modifies fs, fs.store
    ensures fs.store.Valid() && fs.store.pins == old(fs.store.pins)
    ensures UnlinkOk(old(fs.St()), fs.St(), StartOf(path, c), Elements(path), r)
  {
    hide Views, Inv, AtRoot, Sought, UnlinkDone, Cut, Elements, Walked, NsOk, SameUpTo, Standing, AtFile, EntryFound,
         RootMap, NameRoom;
    ghost var st := fs.St();
    var dp, name := LockParent(fs, path, cwd, c);
    if dp == NINODE { return -1; }
    NameCmpIsEqualNames(name, DOT, DIRSIZ);
    NameCmpIsEqualNames(name, DOTDOT, DIRSIZ);
    CutOfDots();
    AtRootFacts(st, fs.St(), dp);
    if NameCmp(name, DOT) || NameCmp(name, DOTDOT) {
      PutWalker(fs, dp, ROOTINO, st);
      return -1;
    }
    assert LookupRoom(st.files, st.slots.Keys, ROOTINO, Cut(name, DIRSIZ)) by { RootMapUnfold(st.files); }
    var found, ip, off := LookupAndLock(fs, dp, name, st);
    SoughtFacts(st, fs.St(), dp, Cut(name, DIRSIZ), found, ip, off);
    if !found {
      AtRootFacts(st, fs.St(), dp);
      PutWalker(fs, dp, ROOTINO, st);
      return -1;
    }
    UnlinkFound(fs, dp, ip, off, st, Cut(name, DIRSIZ));
    r := 0;
  }

  lemma CutOfDots()
    ensures Cut(DOT, DIRSIZ) == DOT && Cut(DOTDOT, DIRSIZ) == DOTDOT
  {
    CutOfShort(DOT, DIRSIZ);
    CutOfShort(DOTDOT, DIRSIZ);
  }

  lemma {:induction false} CutOfShort(s: seq<Byte>, n: nat)
    requires |s| <= n && forall k :: 0 <= k < |s| ==> s[k] != 0
    ensures Cut(s, n) == s
  {
    if s != [] { CutOfShort(s[1..], n - 1); }
  }

  lemma SoughtFacts(st: State, st1: State, dp: nat, n: Name, found: bool, ip: nat, off: nat)
    requires Sought(st, st1, dp, n, found, ip, off)
    ensures found <==> n in RootMap(st.files)
    ensures !found ==> AtRoot(st, st1, dp)
    ensures found ==> AtFile(st, st1, dp, ip, RootMap(st.files)[n]) && EntryFound(st.files, n, off)
  {
    hide AtRoot, AtFile, EntryFound, RootMap;
  }

  // ---------- create ----------

  /** create made file `i` under the new name `n`, in the first empty entry of the root or a
      new one, and returns it referenced and loaded. */
  ghost predicate CreateDone(st: State, st': State, n: Name, f: File, ip: nat, i: nat)
  {
    && n !in RootMap(st.files) && 0 < i < |st.files| && i != ROOTINO && st.files[i] == Free
    && RootMap(st'.files) == RootMap(st.files)[n := i]
    && st'.files == Relinked(st.files, BytesOf(st'.files, ROOTINO), i, f)
    && Holding(st, st', multiset{i}) && Cached(st'.itable, st'.slots, i) && st'.slots[i] == ip
    && NsOk(st') && i in st'.solid && i < |st'.live| && st'.live[i].addrs == NOADDRS
    && FirstEmptyTaken(BytesOf(st.files, ROOTINO), BytesOf(st'.files, ROOTINO), n, i)
    && Extended(st, st', ROOTINO) && (Tidy(st) ==> Tidy(st'))
  }

  /** Everything is as it was, but for blocks the root has taken in vain. */
  ghost predicate CreateFailed(st: State, st': State) { SameView(st, st') && Extended(st, st', ROOTINO) }

  /** No reference moved, and clients see no change. */
  ghost predicate SameView(st: State, st': State)
  {
    Holding(st, st', multiset{}) && st'.files == st.files && st'.solid == st.solid && (Tidy(st) ==> Tidy(st'))
  }

  predicate NoInode(files: seq<File>) { forall j :: 1 <= j < |files| ==> files[j] != Free }

  /** create as a whole.  A new name gets its file just when there is an inode and the root
      has a place for it.  When the name exists, the reference dirlookup took on its inode is
      never given back. */
  ghost predicate CreateOk(st: State, st': State, start: nat, els: seq<Name>, f: File, ip: nat, i: nat)
  {
    if ResolveParent(st.files, start, els) == 0 then ip == NINODE && Untouched(st, st')
    else if els == [] then false
    else
      var n := els[|els| - 1];
      if n in RootMap(st.files) then ip == NINODE && Walked(st, st', multiset{RootMap(st.files)[n]})
      else if NoInode(st.files) then ip == NINODE && Untouched(st, st')
      else if HasPlace(st, ROOTINO) then ip < NINODE && CreateDone(st, st', n, f, ip, i)
      else ip == NINODE && CreateFailed(st, st')
  }

  /** The root and a new inode `i`, not yet named, are held and loaded. */
  ghost predicate AtNew(st: State, st1: State, dp: nat, ip: nat, i: nat, f: File)
  {
    && AtRootShape(st, st1, dp) && Holding(st, st1, multiset{ROOTINO} + multiset{i})
    && 0 < i < |st.files| && i != ROOTINO && st.files[i] == Free && st1.files == st.files[i := f] && f.File?
    && f.typ != T_DIR
    && st1.solid == st.solid + {i} && i !in st.solid && i !in st.slots
    && Cached(st1.itable, st1.slots, i) && st1.slots[i] == ip
    && OnlyInode(st, st1, i) && st1.inodes[i].addrs == NOADDRS
  }

  /** ialloc, ilock, and the fields of the new inode. */
  method NewInode(fs: FileSystem, dp: nat, typ: Short, major: Short, minor: Short, ghost st: State)
    returns (ip: nat, ghost i: nat)
    requires fs.store.Valid() && AtRoot(st, fs.St(), dp) && |fs.store.pins| + 3 <= NBUF && typ != 0 && typ != T_DIR
    requires |st.slots| < NINODE || NoInode(st.files)
    modifies fs, fs.store
    ensures fs.store.Valid() && fs.store.pins == old(fs.store.pins)
    ensures ip >= NINODE ==> fs.St() == old(fs.St()) && NoInode(st.files)
    ensures ip < NINODE ==> !NoInode(st.files) && AtNew(st, fs.St(), dp, ip, i, File(typ, major, minor, 1, []))
  {
    hide Views, Inv, AtRoot, AllocOk, LockOk, FieldsOk, AtNew, IsDir, TargetsOk, Standing;
    ghost var st1 := fs.St();
    AtRootFacts(st, st1, dp);
    ip, i := fs.IAlloc(typ);
    if ip >= NINODE { return; }
    ghost var st2 := fs.St();
    AllocFacts(st1, st2, i, typ, ip);
    fs.ILock(ip);
    ghost var st3 := fs.St();
    NewLocked(st, st1, st2, st3, dp, i, typ, ip);
    fs.SetFields(ip, major, minor, 1, i);
    NewReady(st, st1, st2, st3, fs.St(), dp, i, typ, major, minor, ip);
  }

  lemma AllocFacts(st: State, st1: State, i: nat, typ: Short, ip: nat)
    requires AllocOk(st, st1, i, typ, ip)
    ensures Inv(st1, 0) && ip < |st1.itable| && st1.itable[ip].ref > 0 && st1.itable[ip].inum == i
  {
    hide Inv, RefsMoved;
    SlotsOfReferenced(st1);
    assert st1.slots[i] == ip;
  }

  lemma NewLocked(st: State, st1: State, st2: State, st3: State, dp: nat, i: nat, typ: Short, ip: nat)
    requires AtRoot(st, st1, dp) && AllocOk(st1, st2, i, typ, ip) && LockOk(st2, st3, i)
    ensures Inv(st3, 0) && Holding(st, st3, multiset{ROOTINO} + multiset{i}) && Holding(st1, st3, multiset{i})
    ensures Cached(st3.itable, st3.slots, i) && st3.slots[i] == ip < |st3.itable|
    ensures st3.files == st2.files && st3.solid == st2.solid && OnlyInode(st, st3, i)
    ensures i < |st3.live| && st3.live[i].addrs == NOADDRS
  {
    assert OnlyInode(st, st3, i) && st3.live[i] == EmptyInode(typ) by { hide Inv, RefsMoved, Holding, NsOk; }
    hide Inv, Holding, NsOk, RefsMoved, LockOk, OnlyInode;
    AtRootFacts(st, st1, dp);
    HoldOneMore(st, st1, st2, multiset{ROOTINO}, i, ip);
    HoldAfterLock(st, st2, st3, multiset{ROOTINO} + multiset{i}, i);
    HoldNothing(st1);
    HoldOneMore(st1, st1, st2, multiset{}, i, ip);
    assert multiset{} + multiset{i} == multiset{i};
    HoldAfterLock(st1, st2, st3, multiset{i}, i);
    HoldingFacts(st1, st3, multiset{i});
  }

  lemma NewReady(st: State, st1: State, st2: State, st3: State, st4: State, dp: nat, i: nat, typ: Short, major: Short,
                 minor: Short, ip: nat)
    requires AtRoot(st, st1, dp) && AllocOk(st1, st2, i, typ, ip)
    requires typ != T_DIR && st3.files == st2.files && st3.solid == st2.solid && OnlyInode(st, st3, i)
    requires Holding(st, st3, multiset{ROOTINO} + multiset{i}) && Holding(st1, st3, multiset{i})
    requires Cached(st3.itable, st3.slots, i) && st3.slots[i] == ip && FieldsOk(st3, st4, i, major, minor, 1)
    requires i < |st3.live| && st3.live[i].addrs == NOADDRS
    ensures AtNew(st, st4, dp, ip, i, File(typ, major, minor, 1, [])) && !NoInode(st.files)
  {
    assert OnlyInode(st, st4, i) && st4.inodes[i].addrs == NOADDRS by {
      hide Inv, RefsMoved, Holding;
      OnlyInodeTwice(st, st3, st4, i);
    }
    hide Inv, Holding, RefsMoved, FieldsOk, IsDir, LinksOk, OnlyInode;
    AtRootFacts(st, st1, dp);
    AfterSetFields(st, st3, st4, multiset{ROOTINO} + multiset{i}, i, major, minor, 1);
    AfterSetFields(st1, st3, st4, multiset{i}, i, major, minor, 1);
    StaysAt(st1, st4, multiset{i}, ROOTINO);
    FreeNotReferenced(st, i);
    assert st1.files[ROOTINO] != Free && st.files[i] == Free;
  }

  lemma FreeNotReferenced(st: State, i: nat)
    requires Inv(st, 0) && i < |st.files| && st.files[i] == Free
    ensures i !in st.slots && i !in st.solid && BlocksOf(st.owner, i) == {}
  {
    hide Inv;
    LengthsAgree(st);
    TypeOfFile(st, i);
    FreeInodeOwnsNothing(st, i);
    forall b | b in st.owner ensures st.owner[b].inum != i { assert b in OwnerWithout(st.owner, i); }
  }

  lemma AtNewFacts(st: State, st1: State, dp: nat, ip: nat, i: nat, f: File)
    requires AtNew(st, st1, dp, ip, i, f)
    ensures Inv(st1, 0) && Inv(st, 0) && NsOk(st) && ROOTINO in st1.slots
    ensures st1.slots[ROOTINO] == dp < |st1.itable| && st1.itable[dp].valid
    ensures i in st1.slots && st1.slots[i] == ip < |st1.itable| && st1.itable[ip].valid && st1.itable[ip].inum == i
    ensures IsDir(st1, ROOTINO) && TargetsOk(st1.files, BytesOf(st1.files, ROOTINO))
    ensures BytesOf(st1.files, ROOTINO) == BytesOf(st.files, ROOTINO) && 0 < i < |st1.live| == |st1.inodes|
  {
    hide Inv, Holding, EntryAt, DirOk, LinksOk;
    var held := multiset{ROOTINO} + multiset{i};
    HeldLoaded(st, st1, held, ROOTINO);
    HeldLoaded(st, st1, held, i);
    LengthsAgree(st1);
    NsGivesTree(st);
    RootTargets(st);
  }

  lemma RootTargets(st: State)
    requires NsOk(st)
    ensures TargetsLinked(st.files, BytesOf(st.files, ROOTINO))
  {
    hide EntryAt, DirOk;
    NsGivesTree(st);
    assert IsDirFile(st.files, ROOTINO);
  }

  /** dirlink of the new inode into the root, and the two ways create ends. */
  method NameNew(fs: FileSystem, dp: nat, ip: nat, name: seq<Byte>, ghost st: State, ghost i: nat, ghost f: File)
    returns (ok: bool)
    requires fs.store.Valid() && AtNew(st, fs.St(), dp, ip, i, f) && f.nlink == 1 && |fs.store.pins| + 3 <= NBUF
    requires Cut(name, DIRSIZ) !in RootMap(st.files)
    modifies fs, fs.store
    ensures fs.store.Valid() && fs.store.pins == old(fs.store.pins)
    ensures ok == HasPlace(st, ROOTINO)
    ensures if ok then CreateDone(st, fs.St(), Cut(name, DIRSIZ), f, ip, i) else CreateFailed(st, fs.St())
  {
    hide Views, Inv, AtNew, IsDir, TargetsOk, LinkOk, FieldsOk, PutOk, RootMap, CreateDone, CreateFailed, Holding, Cut,
         DirMap, HasPlace;
    ghost var st1 := fs.St();
    AtNewFacts(st, st1, dp, ip, i, f);
    RootMapUnfold(st.files);
    fs.store.Facts();
    var r := DirLink(fs, dp, name, fs.itable[ip].inum, ROOTINO);
    ghost var st2 := fs.St();
    AfterLink(st, st1, st2, dp, ip, i, f, Cut(name, DIRSIZ), r);
    if r == 0 {
      fs.IPut(dp);
      Created(st, st1, st2, fs.St(), dp, ip, i, f, Cut(name, DIRSIZ));
      return true;
    }
    var d := fs.itable[ip].d;
    fs.SetFields(ip, d.major, d.minor, 0, i);
    ghost var st3 := fs.St();
    NotCreated(st, st1, st2, st3, dp, ip, i, f, d.major, d.minor);
    fs.IPut(ip);
    ghost var st4 := fs.St();
    NotCreatedFreed(st, st1, st2, st3, st4, dp, ip, i, f, Cut(name, DIRSIZ));
    fs.IPut(dp);
    NotCreatedDone(st, st1, st2, st4, fs.St(), dp, ip, i, f, Cut(name, DIRSIZ));
    return false;
  }

  lemma AfterLink(st: State, st1: State, st2: State, dp: nat, ip: nat, i: nat, f: File, n: Name, r: int)
    requires AtNew(st, st1, dp, ip, i, f) && LinkOk(st1, st2, ROOTINO, n, i, r) && n !in RootMap(st.files)
    ensures r == if HasPlace(st, ROOTINO) then 0 else -1
    ensures Holding(st, st2, multiset{ROOTINO} + multiset{i}) && Inv(st2, 0)
      && st2.slots == st1.slots && st2.solid == st1.solid
    ensures Cached(st2.itable, st2.slots, i) && Cached(st2.itable, st2.slots, ROOTINO)
    ensures st2.slots[i] == ip < |st2.itable| && st2.itable[ip].valid && st2.itable[ip].inum == i
      && st2.itable[ip].ref > 0
    ensures st2.slots[ROOTINO] == dp < |st2.itable| && st2.itable[dp].ref > 0 && st2.itable[dp].inum == ROOTINO
  {
    NewSameSpace(st, st1, dp, ip, i, f);
    PlaceAlike(st, st1, ROOTINO);
    hide Inv, Holding, IsDir, DirMap, HasPlace, Extended, Hung, Tidy;
    var held := multiset{ROOTINO} + multiset{i};
    HoldAfterKeep(st, st1, st2, held);
    HeldLoaded(st, st2, held, ROOTINO);
    HeldLoaded(st, st2, held, i);
  }

  /** The root and the bitmap are as before the inode was claimed. */
  lemma NewSameSpace(st: State, st1: State, dp: nat, ip: nat, i: nat, f: File)
    requires AtNew(st, st1, dp, ip, i, f)
    ensures SameSpace(st, st1, ROOTINO) && BytesOf(st1.files, ROOTINO) == BytesOf(st.files, ROOTINO)
    ensures BlocksOf(st1.owner, i) == {} && (Tidy(st) ==> Tidy(st1)) && Linked(st1.files, ROOTINO)
  {
    if Tidy(st) { OnlyInodeTidy(st, st1, i); }
    FreeNotReferenced(st, i);
    LengthsAgree(st);
    hide Inv, Holding, RootMap, NoLeak;
    RootIsFile(st);
  }

  lemma NewIsNew(st: State, st1: State, dp: nat, ip: nat, i: nat, f: File)
    requires AtNew(st, st1, dp, ip, i, f)
    ensures Inv(st, 0) && BytesOf(st1.files, ROOTINO) == BytesOf(st.files, ROOTINO) && i != ROOTINO
    ensures RootMap(st.files) == DirMap(BytesOf(st1.files, ROOTINO)) && i < |st1.inodes|
  {
    hide Inv, Holding, NsOk, DirMap;
  }

  lemma RootIsFile(st: State)
    requires NsOk(st)
    ensures ROOTINO < |st.files| && st.files[ROOTINO].File? && ROOTINO < |st.live| && Linked(st.files, ROOTINO)
  {
    RootIsLinked(st.files);
    hide LinksOk, DirOk;
  }

  lemma Created(st: State, st1: State, st2: State, st3: State, dp: nat, ip: nat, i: nat, f: File, n: Name)
    requires AtNew(st, st1, dp, ip, i, f) && f.nlink == 1 && LinkOk(st1, st2, ROOTINO, n, i, 0)
      && n !in RootMap(st.files)
    requires Holding(st, st2, multiset{ROOTINO} + multiset{i}) && Cached(st2.itable, st2.slots, i) && st2.slots[i] == ip
    requires PutOk(st2, st3, ROOTINO)
    ensures CreateDone(st, st3, n, f, ip, i)
  {
    hide Inv, Holding, PutOk, DirOk, DirMap, HasPlace, Extended, Hung, Tidy, OnlyInode, FirstEmptyTaken, RefsKept;
    CreatedSpace(st, st1, st2, st3, dp, ip, i, f, n);
    var held := multiset{ROOTINO} + multiset{i};
    HoldAfterPut(st, st2, st3, held, ROOTINO);
    assert held - multiset{ROOTINO} == multiset{i};
    KeptSlot(st, st2, st3, held, ROOTINO, i);
    StaysLoaded(st, st2, st3, held, ROOTINO, i);
    var bytes := BytesOf(st2.files, ROOTINO);
    assert st3.files == Relinked(st.files, bytes, i, f);
    CreateKeepsLinks(st.files, bytes, n, i, f);
    CreatedNs(st, st3, i, f);
    NewIsNew(st, st1, dp, ip, i, f);
    HoldingFacts(st, st3, multiset{i});
    CreatedAddrs(st1, st2, st3, n, i);
  }

  lemma CreatedSpace(st: State, st1: State, st2: State, st3: State, dp: nat, ip: nat, i: nat, f: File, n: Name)
    requires AtNew(st, st1, dp, ip, i, f) && LinkOk(st1, st2, ROOTINO, n, i, 0) && n !in RootMap(st.files)
    requires Holding(st, st2, multiset{ROOTINO} + multiset{i}) && PutOk(st2, st3, ROOTINO)
    ensures SameDisk(st2, st3) && Extended(st, st3, ROOTINO) && (Tidy(st) ==> Tidy(st3))
  {
    hide Inv, Holding, LinkOk, PutOk, NsOk, HasPlace, Extended, OnlyInode, DirMap, Tidy, Hung;
    NewSameSpace(st, st1, dp, ip, i, f);
    NewIsNew(st, st1, dp, ip, i, f);
    RootLinked(st1, st2, n, i, 0);
    LinkParts(st1, st2, ROOTINO, n, i, 0);
    RootPutLeavesNoTrace(st, st2, st3, multiset{ROOTINO} + multiset{i});
    SameDiskTidy(st2, st3);
    ExtendedAlike(st, st1, st2, st3, ROOTINO);
  }

  lemma RootLinked(st: State, st': State, n: Name, i: nat, r: int)
    requires LinkOk(st, st', ROOTINO, n, i, r) && Linked(st.files, ROOTINO)
    ensures Linked(st'.files, ROOTINO) && ROOTINO in st'.solid
  {
    hide Inv, DirMap, DirOk, HasPlace, Extended, Hung, RefsKept, Tidy, FirstEmptyTaken;
  }

  lemma LinkParts(st: State, st': State, d: nat, n: Name, i: nat, r: int)
    requires LinkOk(st, st', d, n, i, r)
    ensures Inv(st', 0) && RefsKept(st, st') && (Tidy(st) ==> Tidy(st')) && st'.solid == st.solid
    ensures n !in DirMap(BytesOf(st.files, d)) ==> Extended(st, st', d) && Hung(st, st', d, EndSlots(st, d))
  {
    hide Inv, DirMap, DirOk, HasPlace, Extended, Hung, RefsKept, Tidy, FirstEmptyTaken, EndSlots;
  }

  /** The new inode still has no blocks. */
  lemma CreatedAddrs(st1: State, st2: State, st3: State, n: Name, i: nat)
    requires i < |st1.inodes| && st1.inodes[i].addrs == NOADDRS && i != ROOTINO && LinkOk(st1, st2, ROOTINO, n, i, 0)
    requires SameDisk(st2, st3) && Inv(st3, 0) && i in st3.solid
    ensures i < |st3.live| && st3.live[i].addrs == NOADDRS
  {
    hide Inv, DirMap, IsDir, HasPlace, Extended, Hung, Tidy;
    SolidSynced(st3, i);
  }

  lemma CreatedNs(st: State, st3: State, i: nat, f: File)
    requires NsOk(st) && Holding(st, st3, multiset{i}) && LinksOk(st3.files) && f.File? && f.nlink == 1
      && i < |st.files|
    requires st3.files == Relinked(st.files, BytesOf(st3.files, ROOTINO), i, f)
    requires ROOTINO in st3.solid && DirOk(BytesOf(st3.files, ROOTINO))
    ensures NsOk(st3)
  {
    hide Inv, Holding, RootMap, DirOk, Cached;
    HoldingFacts(st, st3, multiset{i});
    assert IsDirFile(st3.files, ROOTINO);
    forall j: nat | j < |st3.files| && st3.files[j].File? && st3.files[j].nlink == 0
      ensures Cached(st3.itable, st3.slots, j)
    {
      assert st.files[j].File? && st.files[j].nlink == 0;
    }
  }

  lemma NotCreated(st: State, st1: State, st2: State, st3: State, dp: nat, ip: nat, i: nat, f: File, major: Short,
                   minor: Short)
    requires AtNew(st, st1, dp, ip, i, f) && st2.slots == st1.slots && st2.slots[i] == ip
    requires Holding(st, st2, multiset{ROOTINO} + multiset{i})
    requires Cached(st2.itable, st2.slots, i) && Cached(st2.itable, st2.slots, ROOTINO)
    requires FieldsOk(st2, st3, i, major, minor, 0)
    ensures Inv(st3, 0) && Holding(st, st3, multiset{ROOTINO} + multiset{i}) && Cached(st3.itable, st3.slots, i)
    ensures ip < |st3.itable| && st3.itable[ip].ref > 0 && st3.itable[ip].inum == i
    ensures st3.slots == st2.slots && st3.solid == st2.solid
    ensures i < |st2.files| && st2.files[i].File? && OnlyInode(st2, st3, i) && (Tidy(st2) ==> Tidy(st3))
    ensures st3.files == st2.files[i := st2.files[i].(major := major, minor := minor, nlink := 0)]
  {
    hide Inv, Holding, FieldsOk, OnlyInode, Tidy;
    var held := multiset{ROOTINO} + multiset{i};
    AfterSetFields(st, st2, st3, held, i, major, minor, 0);
    HeldLoaded(st, st3, held, i);
  }

  lemma NotCreatedFreed(st: State, st1: State, st2: State, st3: State, st4: State, dp: nat, ip: nat, i: nat, f: File,
                        n: Name)
    requires AtNew(st, st1, dp, ip, i, f) && LinkOk(st1, st2, ROOTINO, n, i, -1) && n !in RootMap(st.files)
    requires Holding(st, st3, multiset{ROOTINO} + multiset{i}) && Cached(st3.itable, st3.slots, i)
    requires st3.slots == st2.slots && st3.solid == st2.solid
    requires i < |st2.files| && st3.files == st2.files[i := st3.files[i]] && st3.files[i].File?
      && st3.files[i].nlink == 0
    requires PutOk(st3, st4, i) && OnlyInode(st2, st3, i) && (Tidy(st2) ==> Tidy(st3))
    ensures Holding(st, st4, multiset{ROOTINO}) && st4.files == st.files && st4.solid == st.solid
    ensures ROOTINO in st4.slots && st4.slots[ROOTINO] == dp < |st4.itable|
    ensures st4.itable[dp].ref > 0 && st4.itable[dp].inum == ROOTINO && Inv(st4, 0)
    ensures Extended(st, st4, ROOTINO) && (Tidy(st) ==> Tidy(st4))
  {
    hide Inv, Holding, PutOk, IsDir, DirMap, NsOk, LastPut, BlocksOf, HasPlace, Extended, Hung, Tidy, OnlyInode;
    NotCreatedSpace(st, st1, st2, st3, st4, dp, ip, i, f, n);
    var held := multiset{ROOTINO} + multiset{i};
    HoldAfterPut(st, st3, st4, held, i);
    LastPutIff(st, st3, held, i);
    assert held - multiset{i} == multiset{ROOTINO};
    assert st4.files == st.files;
    assert st4.solid == st.solid;
    KeptSlot(st, st3, st4, held, i, ROOTINO);
    HeldIsReferenced(st, st4, multiset{ROOTINO}, ROOTINO);
    HoldingFacts(st, st4, multiset{ROOTINO});
  }

  /** Freeing the inode again gives back no block, since it had none. */
  lemma NotCreatedSpace(st: State, st1: State, st2: State, st3: State, st4: State, dp: nat, ip: nat, i: nat, f: File,
                        n: Name)
    requires AtNew(st, st1, dp, ip, i, f) && LinkOk(st1, st2, ROOTINO, n, i, -1) && n !in RootMap(st.files)
    requires Holding(st, st3, multiset{ROOTINO} + multiset{i}) && PutOk(st3, st4, i)
    requires OnlyInode(st2, st3, i) && (Tidy(st2) ==> Tidy(st3))
    ensures Extended(st, st4, ROOTINO) && (Tidy(st) ==> Tidy(st4))
  {
    hide Inv, Holding, LinkOk, NsOk, HasPlace, Extended, DirMap, Tidy, Hung, PutOk, LastPut, AtNew, OnlyInode, BlocksOf;
    NewSameSpace(st, st1, dp, ip, i, f);
    NewIsNew(st, st1, dp, ip, i, f);
    LinkParts(st1, st2, ROOTINO, n, i, -1);
    PutIsTidy(st3, st4, i);
    OthersOwned(st1, st2, ROOTINO, i, EndSlots(st1, ROOTINO));
    HoldAfterPut(st, st3, st4, multiset{ROOTINO} + multiset{i}, i);
    PutKeepsRoot(st3, st4, i);
    OnlyKeepsMarks(st2, st3, i);
    assert st4.marked == st2.marked;
    ExtendedAlike(st, st1, st2, st4, ROOTINO);
  }

  lemma OthersOwned(st: State, st': State, d: nat, i: nat, slots: set<Slot>)
    requires Hung(st, st', d, slots) && i != d && BlocksOf(st.owner, i) == {}
    ensures BlocksOf(st'.owner, i) == {}
  {
    forall b | b in st'.owner ensures st'.owner[b].inum != i {
      if b in st.owner { assert b !in BlocksOf(st.owner, i); } else { assert NewIn(st, st', b, d, slots); }
    }
  }

  lemma OnlyKeepsMarks(st: State, st': State, i: nat)
    requires OnlyInode(st, st', i)
    ensures SameMarks(st, st') && st'.owner == st.owner
  {
  }

  lemma NotCreatedDone(st: State, st1: State, st2: State, st4: State, st5: State, dp: nat, ip: nat, i: nat, f: File,
                       n: Name)
    requires AtNew(st, st1, dp, ip, i, f) && LinkOk(st1, st2, ROOTINO, n, i, -1) && n !in RootMap(st.files)
    requires Holding(st, st4, multiset{ROOTINO}) && st4.files == st.files && st4.solid == st.solid
      && PutOk(st4, st5, ROOTINO)
    requires Extended(st, st4, ROOTINO) && (Tidy(st) ==> Tidy(st4))
    ensures CreateFailed(st, st5)
  {
    hide Inv, Holding, PutOk, LinkOk, DirOk, HasPlace, Extended, Tidy, OnlyInode, LinksOk;
    HoldAfterPut(st, st4, st5, multiset{ROOTINO}, ROOTINO);
    RootIsFile(st);
    RootPutLeavesNoTrace(st, st4, st5, multiset{ROOTINO});
    SameDiskTidy(st4, st5);
    ExtendedStays(st, st4, st5, ROOTINO);
    assert multiset{ROOTINO} - multiset{ROOTINO} == multiset{};
  }

  /** create(path, typ, major, minor) for a file or device. */
  method Create(fs: FileSystem, path: seq<Byte>, typ: Short, major: Short, minor: Short, cwd: nat, ghost c: nat)
    returns (ip: nat, ghost i: nat)
    requires NoNul(path) && Ready(fs, cwd, c) && typ != 0 && typ != T_DIR
    requires CreateRoom(fs.slots.Keys, fs.files, StartOf(path, c), Elements(path))
    modifies fs, fs.store
    ensures fs.store.Valid() && fs.store.pins == old(fs.store.pins)
    ensures CreateOk(old(fs.St()), fs.St(), StartOf(path, c), Elements(path), File(typ, major, minor, 1, []), ip, i)
  {
    hide Views, Inv, AtRoot, AtNew, LookupOk, CreateDone, CreateFailed, Cut, Elements, Walked, NsOk, Standing, RootMap,
         PutOk, IsDir, TargetsOk, NameRoom;
    ghost var st := fs.St();
    i := 0;
    var dp, name := LockParent(fs, path, cwd, c);
    if dp == NINODE { return NINODE, i; }
    AtRootFacts(st, fs.St(), dp);
    ghost var st1 := fs.St();
    RootMapUnfold(st.files);
    var found, ip2, off := DirLookup(fs, dp, name, ROOTINO);
    ghost var st2 := fs.St();
    SoughtFirst(st, st1, st2, dp, Cut(name, DIRSIZ), found, ip2, off);
    if found {
      FoundKeepsRoot(st, st1, st2, dp, Cut(name, DIRSIZ), ip2);
      fs.IPut(dp);
      ExistingLeaks(st, st1, st2, fs.St(), dp, Cut(name, DIRSIZ), ip2);
      return NINODE, i;
    }
    NotFoundIsRoot(st, st2, dp, Cut(name, DIRSIZ), ip2, off);
    ip, i := NewInode(fs, dp, typ, major, minor, st);
    if ip >= NINODE {
      AtRootFacts(st, fs.St(), dp);
      PutWalker(fs, dp, ROOTINO, st);
      return NINODE, i;
    }
    var ok := NameNew(fs, dp, ip, name, st, i, File(typ, major, minor, 1, []));
    if !ok { ip := NINODE; }
  }

  lemma NotFoundIsRoot(st: State, st2: State, dp: nat, n: Name, ip: nat, off: nat)
    requires Sought(st, st2, dp, n, false, ip, off)
    ensures AtRoot(st, st2, dp) && n !in RootMap(st.files)
  {
    hide AtRoot, RootMap;
  }

  lemma FoundKeepsRoot(st: State, st1: State, st2: State, dp: nat, n: Name, ip: nat)
    requires AtRoot(st, st1, dp) && n in RootMap(st.files) && GetOk(st1, st2, RootMap(st.files)[n], ip)
    ensures Inv(st2, 0) && dp < |st2.itable| && st2.itable[dp].ref > 0 && st2.itable[dp].inum == ROOTINO
  {
    hide Inv, Holding, RootMap, GetOk, NsOk;
    AtRootFacts(st, st1, dp);
    HoldAfterGet(st, st1, st2, multiset{ROOTINO}, RootMap(st.files)[n], ip);
    HoldNothing(st1);
    HoldAfterGet(st1, st1, st2, multiset{}, RootMap(st.files)[n], ip);
    StaysAt(st1, st2, multiset{} + multiset{RootMap(st.files)[n]}, ROOTINO);
    HeldIsReferenced(st, st2, multiset{ROOTINO} + multiset{RootMap(st.files)[n]}, ROOTINO);
    HoldingFacts(st, st2, multiset{ROOTINO} + multiset{RootMap(st.files)[n]});
  }

  /** The reference taken on an existing inode stays behind. */
  lemma ExistingLeaks(st: State, st1: State, st2: State, st3: State, dp: nat, n: Name, ip: nat)
    requires AtRoot(st, st1, dp) && n in RootMap(st.files)
    requires GetOk(st1, st2, RootMap(st.files)[n], ip) && PutOk(st2, st3, ROOTINO)
    ensures Walked(st, st3, multiset{RootMap(st.files)[n]})
  {
    hide Inv, Holding, RootMap, GetOk, PutOk, DirOk, LastPut, BlocksOf, LinksOk;
    var t := RootMap(st.files)[n];
    HoldAfterGet(st, st1, st2, multiset{ROOTINO}, t, ip);
    RootIsFile(st);
    WalkedAfterPut(st, st2, st3, multiset{ROOTINO} + multiset{t}, ROOTINO);
    assert multiset{ROOTINO} + multiset{t} - multiset{ROOTINO} == multiset{t};
  }

  // ---------- link ----------

  /** link gave file `t` the further name `n`.  The name space stays in order exactly when
      the link count still fits 16 bits. */
  ghost predicate LinkDone(st: State, st': State, t: nat, n: Name)
  {
    && n !in RootMap(st.files) && 0 < t < |st.files| && t != ROOTINO && st.files[t].File?
    && RootMap(st'.files) == RootMap(st.files)[n := t]
    && st'.files ==
       Relinked(st.files, BytesOf(st'.files, ROOTINO), t, st.files[t].(nlink := Bumped(st.files[t].nlink, 1)))
    && Holding(st, st', multiset{}) && (NsOk(st') <==> st.files[t].nlink < 0x7fff)
    && FirstEmptyTaken(BytesOf(st.files, ROOTINO), BytesOf(st'.files, ROOTINO), n, t)
    && Extended(st, st', ROOTINO) && (Tidy(st) ==> Tidy(st'))
  }

  /** link: but for what it refuses outright, it succeeds just when the root has a place for
      the name. */
  ghost predicate LinkCallOk(st: State, st': State, t: nat, start: nat, els: seq<Name>, r: int)
  {
    if t == 0 || IsDirFile(st.files, t) || NameRefused(st.files, start, els) then
      r == -1 && SameView(st, st') && st'.marked == st.marked
    else if HasPlace(st, ROOTINO) then r == 0 && LinkDone(st, st', t, els[|els| - 1])
    else r == -1 && SameView(st, st') && Extended(st, st', ROOTINO)
  }

  /** The new name has no parent directory, or exists. */
  predicate NameRefused(files: seq<File>, start: nat, els: seq<Name>)
  {
    ResolveParent(files, start, els) == 0 || els == [] || els[|els| - 1] in RootMap(files)
  }

  /** A path leads to the root, or to a name in it. */
  lemma {:induction false} ResolvesInRoot(files: seq<File>, cur: nat, els: seq<Name>)
    requires LinksOk(files) && (cur == ROOTINO || (cur in RootMap(files).Values && !IsDirFile(files, cur)))
    ensures var t := Resolve(files, cur, els);
            t == 0 || t == ROOTINO || (t in RootMap(files).Values && !IsDirFile(files, t))
    decreases |els|
  {
    hide DirMap, Linked;
    if els != [] && LookupIn(files, cur, els[0]) != 0 {
      assert IsDirFile(files, cur) <==> cur == ROOTINO;
      var n := LookupIn(files, cur, els[0]);
      assert RootMap(files)[els[0]] == n;
      assert IsDirFile(files, n) <==> n == ROOTINO;
      ResolvesInRoot(files, n, els[1..]);
    }
  }

  lemma ValueHasLinks(files: seq<File>, t: nat)
    requires LinksOk(files) && t in RootMap(files).Values && t != ROOTINO
    ensures Linked(files, t) && files[t].nlink >= 1
  {
    hide RootMap, Linked;
    var n :| n in RootMap(files) && RootMap(files)[n] == t;
    assert n in Names(RootMap(files), t);
    assert Linked(files, t);
    assert files[t].nlink == |Names(RootMap(files), t)| by { LinkedUnfold(files, t); }
    LinkedUnfold(files, t);
  }

  lemma LinkedUnfold(files: seq<File>, t: nat)
    requires Linked(files, t)
    ensures 0 < t < |files| && files[t].File? && files[t].nlink != 0
  {
  }

  /** The files while link has counted the new name but not entered it. */
  function Counted(files: seq<File>, t: nat): seq<File>
  {
    if t < |files| && files[t].File? then files[t := files[t].(nlink := Bumped(files[t].nlink, 1))] else files
  }

  /** Directories and their targets are as before. */
  lemma CountedTree(st: State, st2: State, t: nat)
    requires NsOk(st) && st2.files == Counted(st.files, t) && st2.solid == st.solid
      && |st2.live| == |st2.inodes| == |st2.files|
    requires t in RootMap(st.files).Values && t != ROOTINO && !IsDirFile(st.files, t)
    ensures TreeOk(st2) && Linked(st2.files, ROOTINO) && IsDir(st2, ROOTINO)
    ensures BytesOf(st2.files, ROOTINO) == BytesOf(st.files, ROOTINO)
  {
    hide DirOk, EntryAt;
    ValueHasLinks(st.files, t);
    var bytes := BytesOf(st.files, ROOTINO);
    forall k | 0 <= k < Count(bytes) && EntryAt(bytes, k).inum != 0
      ensures Linked(st2.files, EntryAt(bytes, k).inum)
    {
      EntryBinds(bytes, Count(bytes), k);
      assert EntryAt(bytes, k).name in RootMap(st.files);
    }
    forall d: nat ensures IsDirFile(st2.files, d) <==> d == ROOTINO { assert IsDirFile(st.files, d) <==> d == ROOTINO; }
  }

  lemma {:induction false} CountedResolvesAlike(files: seq<File>, t: nat, cur: nat, els: seq<Name>)
    requires t < |files| && files[t].File? && !IsDirFile(files, t)
    ensures ResolveParent(Counted(files, t), cur, els) == ResolveParent(files, cur, els)
    decreases |els|
  {
    hide DirMap;
    assert IsDirFile(Counted(files, t), cur) == IsDirFile(files, cur);
    if els != [] && IsDirFile(files, cur) && |els| > 1 {
      assert LookupIn(Counted(files, t), cur, els[0]) == LookupIn(files, cur, els[0]);
      CountedResolvesAlike(files, t, LookupIn(files, cur, els[0]), els[1..]);
    }
  }

  /** link has found file `t`, loaded it and counted the new name. */
  ghost predicate Counting(st: State, st2: State, ip: nat, t: nat)
  {
    && Inv(st, 0) && NsOk(st) && ROOTINO in st.slots
    && t in RootMap(st.files).Values && t != ROOTINO && !IsDirFile(st.files, t)
    && Holding(st, st2, multiset{t}) && Cached(st2.itable, st2.slots, t) && st2.slots[t] == ip
    && st2.files == Counted(st.files, t) && st2.solid == st.solid && OnlyInode(st, st2, t)
  }

  lemma CountingFacts(st: State, st2: State, ip: nat, t: nat, c: nat)
    requires Counting(st, st2, ip, t)
    ensures Inv(st2, 0) && TreeOk(st2) && Linked(st2.files, ROOTINO) && IsDir(st2, ROOTINO)
    ensures st2.slots.Keys == st.slots.Keys + {t} && ROOTINO in st.slots
    ensures c in st.slots ==> c in st2.slots && st2.slots[c] == st.slots[c]
    ensures BytesOf(st2.files, ROOTINO) == BytesOf(st.files, ROOTINO) && t in st2.slots
      && st2.slots[t] == ip < |st2.itable|
    ensures st2.itable[ip].valid && st2.itable[ip].inum == t && st2.itable[ip].ref > 0
    ensures 0 < t < |st.files| == |st2.files| == |st2.live| == |st2.inodes|
    ensures st.files[t].File? && Inv(st, 0) && Holding(st, st2, multiset{t}) && Cached(st2.itable, st2.slots, t)
  {
    hide Inv, Holding, TreeOk, IsDir, RootMap;
    HoldingFacts(st, st2, multiset{t});
    HoldingKeys(st, st2, multiset{t});
    HeldLoaded(st, st2, multiset{t}, t);
    CountedTree(st, st2, t);
    ValueHasLinks(st.files, t);
    LinkedUnfold(st.files, t);
    if c in st.slots { StillThere(st, st2, multiset{t}, c); }
  }

  /** The first part of link: find the file, refuse a directory, and count the new name. */
  method CountLink(fs: FileSystem, old_: seq<Byte>, cwd: nat, ghost c: nat) returns (ip: nat, ghost t: nat)
    requires NoNul(old_) && Ready(fs, cwd, c)
      && NameRoom(fs.slots.Keys, fs.files, StartOf(old_, c), Elements(old_), false)
    modifies fs, fs.store
    ensures fs.store.Valid() && fs.store.pins == old(fs.store.pins)
    ensures t == Resolve(old(fs.files), StartOf(old_, c), Elements(old_))
    ensures ip == NINODE ==> Untouched(old(fs.St()), fs.St()) && (t == 0 || IsDirFile(old(fs.files), t))
    ensures ip != NINODE ==> Counting(old(fs.St()), fs.St(), ip, t)
  {
    hide Views, Inv, Walked, Standing, NsOk, TreeOk, Elements, FieldsOk, Counting, NameRoom;
    ghost var st := fs.St();
    ReadyFacts(st, c);
    var name;
    ip, name := NameX(fs, old_, false, cwd, c);
    t := Resolve(st.files, StartOf(old_, c), Elements(old_));
    NamedFacts(st, fs.St(), t, ip);
    if ip == NINODE { return; }
    var isDir := LockAndTest(fs, ip, t, st);
    if isDir {
      PutWalker(fs, ip, t, st);
      ip := NINODE;
      return;
    }
    ghost var st1 := fs.St();
    StandingHolds(st, st1, t);
    var d := fs.itable[ip].d;
    fs.SetFields(ip, d.major, d.minor, Bumped(d.nlink, 1), t);
    CountedNow(st, st1, fs.St(), ip, t, c, StartOf(old_, c), Elements(old_), d.major, d.minor, Bumped(d.nlink, 1));
  }

  lemma StandingHolds(st: State, st1: State, t: nat)
    requires Standing(st, st1, t) && Cached(st1.itable, st1.slots, t)
    ensures Inv(st1, 0) && Holding(st, st1, multiset{t}) && SameDisk(st, st1)
    ensures t in st1.slots && st1.slots[t] < |st1.itable| && t < |st.files| && st.files[t].File?
    ensures var (d, f) := (st1.itable[st1.slots[t]].d, st.files[t]);
            d.major == f.major && d.minor == f.minor && d.nlink == f.nlink
  {
    hide Inv, Holding, TreeOk;
    HeldLoaded(st, st1, multiset{t}, t);
  }

  lemma CountedNow(st: State, st1: State, st2: State, ip: nat, t: nat, c: nat, start: nat, els: seq<Name>, major: Short,
                   minor: Short, nlink: Short)
    requires Inv(st, 0) && NsOk(st) && ROOTINO in st.slots && IsDirFile(st.files, c) && (start == ROOTINO || start == c)
    requires t == Resolve(st.files, start, els) && t != 0 && !IsDirFile(st.files, t)
    requires Holding(st, st1, multiset{t}) && Cached(st1.itable, st1.slots, t)
    requires st1.slots[t] == ip && SameDisk(st, st1)
    requires t < |st.files| && st.files[t].File? && major == st.files[t].major
    requires minor == st.files[t].minor && nlink == Bumped(st.files[t].nlink, 1)
    requires FieldsOk(st1, st2, t, major, minor, nlink)
    ensures Counting(st, st2, ip, t)
  {
    hide Inv, Holding, FieldsOk, IsDir, RootMap, Linked, Resolve;
    assert IsDirFile(st.files, c) <==> c == ROOTINO;
    assert IsDirFile(st.files, ROOTINO);
    ResolvesInRoot(st.files, start, els);
    AfterSetFields(st, st1, st2, multiset{t}, t, major, minor, nlink);
  }

  /** A link more makes no difference to a walk. */
  lemma {:induction false} CountedRoom(keys: set<nat>, files: seq<File>, t: nat, cur: nat, els: seq<Name>, parent: bool)
    requires t < |files| && files[t].File? && !IsDirFile(files, t)
    ensures WalkRoom(keys, Counted(files, t), cur, els, parent) == WalkRoom(keys, files, cur, els, parent)
    decreases |els|
  {
    hide DirMap, RoomFor;
    assert IsDirFile(Counted(files, t), cur) == IsDirFile(files, cur);
    if els != [] && IsDirFile(files, cur) {
      assert LookupIn(Counted(files, t), cur, els[0]) == LookupIn(files, cur, els[0]);
      CountedRoom(keys, files, t, LookupIn(files, cur, els[0]), els[1..], parent);
    }
  }

  lemma CountingRoom(st: State, st2: State, ip: nat, t: nat, start: nat, els: seq<Name>)
    requires Counting(st, st2, ip, t) && EnterRoom(st.slots.Keys + {t}, st.files, start, els)
    ensures NameRoom(st2.slots.Keys, st2.files, start, els, true)
  {
    CountingFacts(st, st2, ip, t, start);
    hide Inv, Holding, RootMap, IsDir, WalkRoom, LookupRoom, NsOk, TreeOk;
    CountedRoom(st2.slots.Keys, st.files, t, start, els, true);
  }

  /** The second part of link: find the parent and enter the name. */
  method EnterName(fs: FileSystem, new_: seq<Byte>, ip: nat, cwd: nat, ghost c: nat, ghost t: nat, ghost st: State)
    returns (ok: bool)
    requires NoNul(new_) && fs.store.Valid() && |fs.store.pins| + 3 <= NBUF && Counting(st, fs.St(), ip, t)
    requires c in st.slots && st.slots[c] == cwd && IsDirFile(st.files, c)
    requires EnterRoom(st.slots.Keys + {t}, st.files, StartOf(new_, c), Elements(new_))
    modifies fs, fs.store
    ensures fs.store.Valid() && fs.store.pins == old(fs.store.pins)
    ensures NameEntered(st, old(fs.St()), fs.St(), ip, t, StartOf(new_, c), Elements(new_), ok)
  {
    hide Views, Inv, Walked, Standing, TreeOk, Elements, Counting, IsDir, TargetsOk, LinkOk, PutOk, NameEntered, Named,
         Cut, DirMap, Holding, NameRoom, LookupRoom;
    ghost var (st2, start, els) := (fs.St(), StartOf(new_, c), Elements(new_));
    CountingFacts(st, st2, ip, t, c);
    CountingRoom(st, st2, ip, t, start, els);
    var dp, name := NameX(fs, new_, true, cwd, c);
    ghost var p := ResolveParent(st2.files, start, els);
    CountingParent(st, st2, ip, t, start, els);
    NamedFacts(st2, fs.St(), p, dp);
    if dp == NINODE {
      NotEntered(st, st2, fs.St(), ip, t, start, els);
      return false;
    }
    var isDir := LockAndTest(fs, dp, ROOTINO, st2);
    ghost var st3 := fs.St();
    CountingStanding(st, st2, st3, ip, t);
    fs.store.Facts();
    EnterLookupRoom(st, st3, t, Cut(name, DIRSIZ));
    var r := DirLink(fs, dp, name, fs.itable[ip].inum, ROOTINO);
    ghost var st4 := fs.St();
    EnteredInRoot(st, st2, st3, st4, ip, t, Cut(name, DIRSIZ), r);
    fs.IPut(dp);
    EnterNameDone(st, st2, st3, st4, fs.St(), ip, t, start, els, r);
    ok := r == 0;
  }

  lemma EnterLookupRoom(st: State, st3: State, t: nat, n: Name)
    requires LookupRoom(st.files, st.slots.Keys + {t}, ROOTINO, n) && st3.slots.Keys == st.slots.Keys + {t}
    requires BytesOf(st3.files, ROOTINO) == BytesOf(st.files, ROOTINO)
    ensures LookupRoom(st3.files, st3.slots.Keys, ROOTINO, n)
  {
    hide DirMap;
  }

  ghost predicate NameEntered(st: State, st2: State, st': State, ip: nat, t: nat, start: nat, els: seq<Name>, ok: bool)
  {
    && Holding(st, st', multiset{t}) && Cached(st'.itable, st'.slots, t) && st'.slots[t] == ip && st'.solid == st.solid
    && ok == (!NameRefused(st.files, start, els) && HasPlace(st, ROOTINO)) && (Tidy(st) ==> Tidy(st'))
    && (if NameRefused(st.files, start, els) then st'.marked == st.marked else Extended(st, st', ROOTINO))
    && (ok ==> IsDir(st', ROOTINO))
    && (ok ==> els != [] && DirMap(BytesOf(st'.files, ROOTINO)) == RootMap(st.files)[els[|els| - 1] := t])
    && (ok ==>
       els != [] && FirstEmptyTaken(BytesOf(st.files, ROOTINO), BytesOf(st'.files, ROOTINO), els[|els| - 1], t))
    && (ok ==>
       ROOTINO < |st2.files| && st2.files[ROOTINO].File?
         && st'.files == st2.files[ROOTINO := st2.files[ROOTINO].(bytes := BytesOf(st'.files, ROOTINO))])
    && (!ok ==> st'.files == st2.files)
  }

  lemma CountingParent(st: State, st2: State, ip: nat, t: nat, start: nat, els: seq<Name>)
    requires Counting(st, st2, ip, t)
    ensures var p := ResolveParent(st2.files, start, els);
            p == ResolveParent(st.files, start, els) && (p == 0 || p == ROOTINO)
  {
    hide Inv, Holding, RootMap, ResolveParent, IsDir;
    ValueHasLinks(st.files, t);
    LinkedUnfold(st.files, t);
    CountedResolvesAlike(st.files, t, start, els);
    if ResolveParent(st.files, start, els) != 0 { ParentIsRoot(st, start, els); }
  }

  lemma NotEntered(st: State, st2: State, st3: State, ip: nat, t: nat, start: nat, els: seq<Name>)
    requires Counting(st, st2, ip, t) && Walked(st2, st3, multiset{}) && ResolveParent(st.files, start, els) == 0
    ensures NameEntered(st, st2, st3, ip, t, start, els, false)
  {
    CountingTidy(st, st2, ip, t);
    SameDiskTidy(st2, st3);
    hide Inv, Holding, RootMap, ResolveParent, NsOk, Tidy, HasPlace, Extended;
    HoldTransitive(st, st2, st3, multiset{t}, multiset{});
    assert multiset{t} + multiset{} == multiset{t};
    StaysAt(st2, st3, multiset{}, t);
  }

  lemma CountingStanding(st: State, st2: State, st3: State, ip: nat, t: nat)
    requires Counting(st, st2, ip, t) && Standing(st2, st3, ROOTINO) && Cached(st3.itable, st3.slots, ROOTINO)
    ensures Inv(st3, 0) && IsDir(st3, ROOTINO) && TargetsOk(st3.files, BytesOf(st3.files, ROOTINO))
    ensures st3.slots.Keys == st.slots.Keys + {t}
    ensures t in st3.slots && st3.slots[t] == ip < |st3.itable|
    ensures st3.itable[ip].inum == t && 0 < t < |st3.live| == |st3.inodes|
    ensures BytesOf(st3.files, ROOTINO) == BytesOf(st.files, ROOTINO)
    ensures Holding(st2, st3, multiset{ROOTINO}) && SameDisk(st2, st3)
  {
    hide Counting, Standing, Inv, Holding, IsDir, TreeOk, TargetsOk, Linked;
    CountingFacts(st, st2, ip, t, 0);
    StandingFacts(st2, st3, ROOTINO);
    IsDirHasType(st2, ROOTINO);
    StandingTree(st2, st3, ROOTINO);
    StandingHeld(st2, st3, ROOTINO);
    hide Cached;
    StaysAt(st2, st3, multiset{ROOTINO}, t);
    SlotsOfReferenced(st3);
    LengthsAgree(st3);
    HoldingFacts(st2, st3, multiset{ROOTINO});
  }

  lemma StandingHeld(st: State, st1: State, i: nat)
    requires Standing(st, st1, i)
    ensures Holding(st, st1, multiset{i}) && SameDisk(st, st1)
  {
    hide Inv, TreeOk, Holding;
  }

  lemma IsDirHasType(st: State, d: nat)
    requires IsDir(st, d)
    ensures IsDirFile(st.files, d)
  {
  }

  lemma EnteredInRoot(st: State, st2: State, st3: State, st4: State, ip: nat, t: nat, n: Name, r: int)
    requires Counting(st, st2, ip, t) && Holding(st2, st3, multiset{ROOTINO})
    requires st3.files == st2.files && st3.solid == st2.solid
    requires BytesOf(st3.files, ROOTINO) == BytesOf(st.files, ROOTINO) && LinkOk(st3, st4, ROOTINO, n, t, r)
    ensures Holding(st2, st4, multiset{ROOTINO}) && Inv(st4, 0) && ROOTINO in st4.slots
    ensures st4.slots[ROOTINO] == st3.slots[ROOTINO] < |st4.itable|
    ensures st4.itable[st4.slots[ROOTINO]].ref > 0 && st4.itable[st4.slots[ROOTINO]].inum == ROOTINO
    ensures r == 0 || r == -1
  {
    hide Inv, Holding, IsDir, DirMap, HasPlace, Extended, Hung, Tidy;
    HoldAfterKeep(st2, st3, st4, multiset{ROOTINO});
    HeldIsReferenced(st2, st4, multiset{ROOTINO}, ROOTINO);
  }

  lemma EnteredHolds(st: State, st2: State, st4: State, st5: State, ip: nat, t: nat)
    requires Counting(st, st2, ip, t) && Holding(st2, st4, multiset{ROOTINO})
    requires PutOk(st4, st5, ROOTINO) && Linked(st4.files, ROOTINO) && ROOTINO in st4.solid
    ensures Holding(st, st5, multiset{t}) && Cached(st5.itable, st5.slots, t) && st5.slots[t] == ip
    ensures SameDisk(st4, st5) && |st5.live| == |st5.inodes| == |st5.files|
  {
    hide Counting, Inv, TreeOk, Holding, PutOk, IsDir, LastPut, BlocksOf, Cached;
    CountingFacts(st, st2, ip, t, 0);
    HoldAfterPut(st2, st4, st5, multiset{ROOTINO}, ROOTINO);
    RootPutLeavesNoTrace(st2, st4, st5, multiset{ROOTINO});
    assert multiset{ROOTINO} - multiset{ROOTINO} == multiset{};
    HoldTransitive(st, st2, st5, multiset{t}, multiset{});
    assert multiset{t} + multiset{} == multiset{t};
    StaysAt(st2, st5, multiset{}, t);
    HoldingFacts(st2, st5, multiset{});
  }

  lemma EnterNameDone(st: State, st2: State, st3: State, st4: State, st5: State, ip: nat, t: nat, start: nat,
                      els: seq<Name>, r: int)
    requires Counting(st, st2, ip, t) && SameDisk(st2, st3) && ResolveParent(st.files, start, els) != 0
    requires BytesOf(st3.files, ROOTINO) == BytesOf(st.files, ROOTINO)
    requires els != [] && LinkOk(st3, st4, ROOTINO, els[|els| - 1], t, r)
    requires Holding(st2, st4, multiset{ROOTINO}) && PutOk(st4, st5, ROOTINO)
    ensures NameEntered(st, st2, st5, ip, t, start, els, r == 0)
  {
    hide Inv, Holding, PutOk, DirMap, DirOk, ResolveParent, LinksOk, RefsKept, FirstEmptyTaken, Cached, HasPlace, Hung,
         Extended, Tidy, OnlyInode;
    var n := els[|els| - 1];
    RootStaysLinked(st, st2, st3, st4, ip, t, n, r);
    RootLinked(st3, st4, n, t, r);
    EnteredHolds(st, st2, st4, st5, ip, t);
    RootMapUnfold(st.files);
    EnteredSpace(st, st2, st3, st4, st5, ip, t, n, r);
  }

  lemma EnteredSpace(st: State, st2: State, st3: State, st4: State, st5: State, ip: nat, t: nat, n: Name, r: int)
    requires Counting(st, st2, ip, t) && SameDisk(st2, st3) && SameDisk(st4, st5)
    requires BytesOf(st3.files, ROOTINO) == BytesOf(st.files, ROOTINO) && LinkOk(st3, st4, ROOTINO, n, t, r)
    ensures HasPlace(st3, ROOTINO) == HasPlace(st, ROOTINO) && (Tidy(st) ==> Tidy(st5))
    ensures if n in RootMap(st.files) then st5.marked == st.marked else Extended(st, st5, ROOTINO)
  {
    hide Inv, Holding, LinkOk, DirMap, HasPlace, Extended, Hung, Tidy, Counting;
    CountingTidy(st, st2, ip, t);
    SameDiskTidy(st2, st3);
    SameDiskTidy(st4, st5);
    LinkParts(st3, st4, ROOTINO, n, t, r);
    if n in RootMap(st.files) { LinkExists(st3, st4, ROOTINO, n, t, r); }
    assert SameSpace(st, st3, ROOTINO) by { CountingSpace(st, st2, ip, t); }
    PlaceAlike(st, st3, ROOTINO);
    if n !in RootMap(st.files) { ExtendedAlike(st, st3, st4, st5, ROOTINO); }
  }

  lemma CountingSpace(st: State, st2: State, ip: nat, t: nat)
    requires Counting(st, st2, ip, t)
    ensures st2.data == st.data && st2.marked == st.marked
    ensures ROOTINO < |st.live| && ROOTINO < |st2.live| && st2.live[ROOTINO] == st.live[ROOTINO]
  {
    hide Inv, Holding, LinksOk, DirOk;
    RootIsFile(st);
  }

  lemma LinkExists(st: State, st': State, d: nat, n: Name, i: nat, r: int)
    requires LinkOk(st, st', d, n, i, r) && n in DirMap(BytesOf(st.files, d))
    ensures SameDisk(st, st') && r == -1
  {
    hide Inv, DirMap, DirOk, HasPlace, Extended, Hung, RefsKept, Tidy, FirstEmptyTaken, EndSlots;
  }

  lemma CountingTidy(st: State, st2: State, ip: nat, t: nat)
    requires Counting(st, st2, ip, t)
    ensures Tidy(st) ==> Tidy(st2)
  {
    hide Inv, Holding, NsOk, RootMap, NoLeak;
    if Tidy(st) { OnlyInodeTidy(st, st2, t); }
  }

  lemma RootStaysLinked(st: State, st2: State, st3: State, st4: State, ip: nat, t: nat, n: Name, r: int)
    requires Counting(st, st2, ip, t) && st3.files == st2.files && LinkOk(st3, st4, ROOTINO, n, t, r)
    ensures Linked(st4.files, ROOTINO)
  {
    hide Inv, LinkOk, Linked, Counting;
    CountingFacts(st, st2, ip, t, 0);
    assert Linked(st3.files, ROOTINO);
    RootLinked(st3, st4, n, t, r);
  }

  lemma CountedFacts(st: State, st2: State, st3: State, ip: nat, t: nat)
    requires Counting(st, st2, ip, t) && Holding(st, st3, multiset{t}) && Cached(st3.itable, st3.slots, t)
      && st3.slots[t] == ip
    ensures Inv(st3, 0) && ip < |st3.itable| && st3.itable[ip].ref > 0 && st3.itable[ip].inum == t
      && st3.itable[ip].valid
    ensures t < |st.files| && st.files[t].File? && st.files[t].nlink >= 1 && t != 0 && t != ROOTINO
    ensures t < |st3.files| && st3.files[t].File?
    ensures var (d, f) := (st3.itable[ip].d, st3.files[t]);
            d.major == f.major && d.minor == f.minor && d.nlink == f.nlink
  {
    hide Inv, Holding, RootMap, LinksOk;
    HeldLoaded(st, st3, multiset{t}, t);
    ValueHasLinks(st.files, t);
    LinkedUnfold(st.files, t);
    assert Linked(st.files, t);
  }

  lemma IsRefused(files: seq<File>, start: nat, els: seq<Name>)
    requires !NameRefused(files, start, els)
    ensures els != [] && els[|els| - 1] !in RootMap(files) && ResolveParent(files, start, els) != 0
  {
    hide RootMap, ResolveParent;
  }

  lemma EnteredPut(st: State, st3: State, st4: State, t: nat)
    requires Extended(st, st3, ROOTINO) && PutOk(st3, st4, t) && t != ROOTINO && !LastPut(st3, t)
    ensures Extended(st, st4, ROOTINO)
  {
    hide Inv, LastPut, BlocksOf, RefsMoved, Tidy, Extended;
    PutKeepsRoot(st3, st4, t);
    ExtendedStays(st, st3, st4, ROOTINO);
  }

  lemma PutKeepsRoot(st: State, st': State, t: nat)
    requires PutOk(st, st', t) && t != ROOTINO
    ensures StillOwned(st.owner, st'.owner, ROOTINO) && st'.data == st.data
  {
    hide Inv, LastPut, BlocksOf, RefsMoved, Tidy;
  }

  lemma Entered(st: State, st2: State, st3: State, st4: State, ip: nat, t: nat, start: nat, els: seq<Name>)
    requires Counting(st, st2, ip, t) && NameEntered(st, st2, st3, ip, t, start, els, true) && PutOk(st3, st4, t)
    ensures els != [] && LinkDone(st, st4, t, els[|els| - 1])
  {
    hide Inv, Holding, RootMap, PutOk, IsDir, LastPut, BlocksOf, DirMap, LinksOk, HasPlace, Extended, Tidy, OnlyInode,
         NameRefused;
    PutIsTidy(st3, st4, t);
    assert els[|els| - 1] !in RootMap(st.files) by { IsRefused(st.files, start, els); }
    CountedFacts(st, st2, st3, ip, t);
    HoldAfterPut(st, st3, st4, multiset{t}, t);
    LastPutIff(st, st3, multiset{t}, t);
    assert multiset{t} - multiset{t} == multiset{};
    var (bytes, f) := (BytesOf(st3.files, ROOTINO), st.files[t].(nlink := Bumped(st.files[t].nlink, 1)));
    assert st3.files[t] == f;
    assert st4.files == Relinked(st.files, bytes, t, f);
    assert RootMap(st4.files) == DirMap(bytes) by { RootMapUnfold(st4.files); }
    LinkKeepsLinks(st.files, bytes, els[|els| - 1], t);
    EnteredPut(st, st3, st4, t);
    RootIsLinked(st.files);
    LinkNs(st, st3, st4, t, f);
  }

  lemma RootIsLinked(files: seq<File>)
    requires LinksOk(files)
    ensures Linked(files, ROOTINO)
  {
    hide RootMap, Linked;
  }

  lemma RootMapUnfold(files: seq<File>)
    ensures RootMap(files) == DirMap(BytesOf(files, ROOTINO))
  {
  }

  lemma LinkNs(st: State, st3: State, st4: State, t: nat, f: File)
    requires NsOk(st) && Holding(st, st4, multiset{}) && f.File? && t < |st.files| && t != ROOTINO
      && Linked(st.files, ROOTINO)
    requires st.files[t].File? && st.files[t].nlink >= 1 && f == st.files[t].(nlink := Bumped(st.files[t].nlink, 1))
    requires st4.files == Relinked(st.files, BytesOf(st4.files, ROOTINO), t, f) && st4.files == st3.files
    requires IsDir(st3, ROOTINO) && st4.solid == st3.solid
    ensures LinksOk(st4.files) <==> NsOk(st4)
  {
    hide Inv, Holding, RootMap, DirOk, Cached, LinksOk;
    HoldingFacts(st, st4, multiset{});
    forall j: nat | j < |st4.files| && st4.files[j].File? && st4.files[j].nlink == 0
      ensures Cached(st4.itable, st4.slots, j)
    {
      assert st.files[j].File? && st.files[j].nlink == 0;
    }
  }

  /** On failure the count goes back, and the reference with it. */
  lemma Uncounted(st: State, st2: State, st3: State, st4: State, ip: nat, t: nat, start: nat, els: seq<Name>,
                  major: Short, minor: Short)
    requires Counting(st, st2, ip, t) && NameEntered(st, st2, st3, ip, t, start, els, false)
    requires t < |st3.files| && st3.files[t].File? && major == st3.files[t].major && minor == st3.files[t].minor
    requires FieldsOk(st3, st4, t, major, minor, Bumped(st3.files[t].nlink, -1))
    ensures Holding(st, st4, multiset{t}) && Cached(st4.itable, st4.slots, t) && st4.slots[t] == ip
    ensures st4.files == st.files && st4.solid == st.solid && st4.marked == st3.marked && st4.owner == st3.owner
    ensures (Tidy(st) ==> Tidy(st4)) && NotEnteredSpace(st, st4, start, els)
    ensures Inv(st4, 0) && ip < |st4.itable| && st4.itable[ip].ref > 0 && st4.itable[ip].inum == t
  {
    hide Inv, Holding, RootMap, FieldsOk, IsDir, LinksOk, DirMap, HasPlace, Extended, Tidy, NameRefused;
    CountedFacts(st, st2, st3, ip, t);
    BumpBack(st.files[t].nlink);
    AfterSetFields(st, st3, st4, multiset{t}, t, major, minor, Bumped(st3.files[t].nlink, -1));
    HeldLoaded(st, st4, multiset{t}, t);
    if !NameRefused(st.files, start, els) { ExtendedStays(st, st3, st4, ROOTINO); }
    assert st4.files == st.files;
  }

  /** Why the name was not entered, and what that took. */
  ghost predicate NotEnteredSpace(st: State, st': State, start: nat, els: seq<Name>)
  {
    if NameRefused(st.files, start, els) then st'.marked == st.marked
    else !HasPlace(st, ROOTINO) && Extended(st, st', ROOTINO)
  }

  lemma NothingLinked(st: State, st4: State, st5: State, t: nat, start: nat, els: seq<Name>)
    requires Inv(st, 0) && NsOk(st) && t in RootMap(st.files).Values && t != ROOTINO
    requires Holding(st, st4, multiset{t}) && Cached(st4.itable, st4.slots, t)
    requires st4.files == st.files && st4.solid == st.solid && PutOk(st4, st5, t)
    requires (Tidy(st) ==> Tidy(st4)) && NotEnteredSpace(st, st4, start, els)
    ensures SameView(st, st5) && NotEnteredSpace(st, st5, start, els)
  {
    PutIsTidy(st4, st5, t);
    PutKeepsRoot(st4, st5, t);
    hide Inv, Holding, RootMap, PutOk, IsDir, LastPut, BlocksOf, LinksOk, HasPlace, Extended, Tidy, NameRefused;
    HoldAfterPut(st, st4, st5, multiset{t}, t);
    assert multiset{t} - multiset{t} == multiset{};
    ValueHasLinks(st.files, t);
    if !NameRefused(st.files, start, els) { ExtendedStays(st, st4, st5, ROOTINO); }
  }

  /** link: 0 when the file got its new name, else -1 and everything is as it was. */
  method Link(fs: FileSystem, old_: seq<Byte>, new_: seq<Byte>, cwd: nat, ghost c: nat)
    returns (r: int, ghost t: nat)
    requires NoNul(old_) && NoNul(new_) && Ready(fs, cwd, c)
    requires LinkRoom(fs.slots.Keys, fs.files, StartOf(old_, c), Elements(old_), StartOf(new_, c), Elements(new_))
    modifies fs, fs.store
    ensures fs.store.Valid() && fs.store.pins == old(fs.store.pins)
    ensures t == Resolve(old(fs.files), StartOf(old_, c), Elements(old_))
    ensures LinkCallOk(old(fs.St()), fs.St(), t, StartOf(new_, c), Elements(new_), r)
  {
    hide Views, Inv, Walked, NsOk, Elements, Counting, NameEntered, LinkDone, PutOk, FieldsOk, NameRefused, SameView,
         NameRoom, EnterRoom, HasPlace, Extended;
    ghost var st := fs.St();
    var ip;
    ip, t := CountLink(fs, old_, cwd, c);
    ghost var st2 := fs.St();
    if ip == NINODE {
      NothingToLink(st, st2);
      return -1, t;
    }
    assert t != 0 && !IsDirFile(st.files, t) by { CountingValue(st, st2, ip, t); }
    var ok := EnterName(fs, new_, ip, cwd, c, t, st);
    ghost var st3 := fs.St();
    CountedEntry(st, st2, st3, ip, t, StartOf(new_, c), Elements(new_), ok);
    if ok {
      fs.IPut(ip);
      Entered(st, st2, st3, fs.St(), ip, t, StartOf(new_, c), Elements(new_));
      return 0, t;
    }
    var d := fs.itable[ip].d;
    fs.SetFields(ip, d.major, d.minor, Bumped(d.nlink, -1), t);
    ghost var st4 := fs.St();
    Uncounted(st, st2, st3, st4, ip, t, StartOf(new_, c), Elements(new_), d.major, d.minor);
    fs.IPut(ip);
    CountingValue(st, st2, ip, t);
    NothingLinked(st, st4, fs.St(), t, StartOf(new_, c), Elements(new_));
    r := -1;
  }

  lemma NothingToLink(st: State, st2: State)
    requires Walked(st, st2, multiset{})
    ensures SameView(st, st2) && st2.marked == st.marked
  {
    SameDiskTidy(st, st2);
    hide Holding, Tidy;
  }

  lemma CountedEntry(st: State, st2: State, st3: State, ip: nat, t: nat, start: nat, els: seq<Name>, ok: bool)
    requires Counting(st, st2, ip, t) && NameEntered(st, st2, st3, ip, t, start, els, ok)
    ensures Inv(st3, 0) && t in st3.slots && st3.slots[t] == ip < |st3.itable|
    ensures st3.itable[ip].ref > 0 && st3.itable[ip].inum == t && st3.itable[ip].valid
    ensures t < |st3.files| && st3.files[t].File? && ok == (!NameRefused(st.files, start, els) && HasPlace(st, ROOTINO))
    ensures var (d, f) := (st3.itable[ip].d, st3.files[t]);
            d.major == f.major && d.minor == f.minor && d.nlink == f.nlink
  {
    hide Inv, Holding, RootMap, IsDir, DirMap, Counting, HasPlace, Extended, Tidy, NameRefused;
    CountedFacts(st, st2, st3, ip, t);
  }

  lemma CountingValue(st: State, st2: State, ip: nat, t: nat)
    requires Counting(st, st2, ip, t)
    ensures Inv(st, 0) && NsOk(st) && t in RootMap(st.files).Values && t != ROOTINO && t != 0 && !IsDirFile(st.files, t)
  {
    ValueHasLinks(st.files, t);
    hide Inv, RootMap, IsDir;
  }
}
