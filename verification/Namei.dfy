/** namex: walking a path from directory to directory (xv6fs/src/fs.c). */
module Namei {
  import opened Layout
  import opened BlockTree
  import opened BlockStore
  import opened Invariant
  import opened Directory
  import opened FileSystem
  import opened DirectoryOps
  import opened Path
  import opened References

  // ---------- resolution as a function of the files ----------

  predicate IsDirFile(files: seq<File>, d: nat) { d < |files| && files[d].File? && files[d].typ == T_DIR }

  /** The inode a directory binds a name to; 0 if none. */
  function LookupIn(files: seq<File>, d: nat, name: Name): nat
  {
    if IsDirFile(files, d) && name in DirMap(files[d].bytes) then DirMap(files[d].bytes)[name] else 0
  }

  /** namei: the inode a list of elements leads to from `cur`; 0 if none. */
  function Resolve(files: seq<File>, cur: nat, els: seq<Name>): nat
    decreases |els|
  {
    if els == [] then cur
    else
      var n := LookupIn(files, cur, els[0]);
      if n == 0 then 0 else Resolve(files, n, els[1..])
  }

  /** nameiparent: the directory the last element is to be looked up in; 0 if none. */
  function ResolveParent(files: seq<File>, cur: nat, els: seq<Name>): nat
    decreases |els|
  {
    if els == [] || !IsDirFile(files, cur) then 0
    else if |els| == 1 then cur
    else
      var n := LookupIn(files, cur, els[0]);
      if n == 0 then 0 else ResolveParent(files, n, els[1..])
  }

  /** namei(path) is dirlookup(nameiparent(path), last element), both failing together. */
  lemma {:induction false} NameiIsLookupInParent(files: seq<File>, cur: nat, els: seq<Name>)
    requires els != [] && cur != 0
    ensures var p := ResolveParent(files, cur, els);
      Resolve(files, cur, els) == if p == 0 then 0 else LookupIn(files, p, els[|els| - 1])
    ensures ResolveParent(files, cur, els) != 0 ==> IsDirFile(files, ResolveParent(files, cur, els))
    decreases |els|
  {
    hide DirMap;
    var n := LookupIn(files, cur, els[0]);
    if |els| == 1 {
      assert Resolve(files, n, els[1..]) == n;
    } else if n != 0 {
      NameiIsLookupInParent(files, n, els[1..]);
    }
  }

  /** Appending an element is one lookup more, in the directory the rest leads to. */
  lemma {:induction false} ResolveOneMore(files: seq<File>, cur: nat, els: seq<Name>, n: Name)
    requires cur != 0
    ensures Resolve(files, cur, []) == cur
    ensures var d := Resolve(files, cur, els);
      Resolve(files, cur, els + [n]) == if d == 0 then 0 else LookupIn(files, d, n)
    decreases |els|
  {
    hide LookupIn;
    var all := els + [n];
    if els == [] {
      assert all == [n] && all[1..] == [];
    } else {
      assert all[0] == els[0] && all[1..] == els[1..] + [n];
      if LookupIn(files, cur, els[0]) != 0 { ResolveOneMore(files, LookupIn(files, cur, els[0]), els[1..], n); }
    }
  }

  /** A lookup finds the inode number of the 64-byte entry with that name, in a directory that
      has one, and nothing otherwise. */
  lemma LookupByEntry(files: seq<File>, d: nat, n: Name, i: nat)
    requires d < |files| && files[d].File? && DirOk(files[d].bytes) && i != 0
    ensures LookupIn(files, d, n) == i <==>
      files[d].typ == 1 && exists k :: 0 <= k < |files[d].bytes| / 64 && IsEntry(files[d].bytes, k, n, i)
  {
    hide DirOk;
    var bytes := files[d].bytes;
    if files[d].typ == 1 {
      if n in DirMap(bytes) {
        var k := BoundByEntry(bytes, Count(bytes), n);
        EntryInBytes(bytes, k, n, DirMap(bytes)[n]);
      }
      forall k | 0 <= k < |bytes| / 64 && IsEntry(bytes, k, n, i) ensures n in DirMap(bytes) && DirMap(bytes)[n] == i {
        EntryInBytes(bytes, k, n, i);
        EntryBinds(bytes, Count(bytes), k);
      }
    }
  }

  // ---------- the state while walking ----------

  /** Every live entry of every directory names an allocated inode with links, and
      directories are in order. */
  ghost predicate TreeOk(st: State)
  {
    forall d: nat {:trigger IsDirFile(st.files, d)} :: IsDirFile(st.files, d) ==>
      IsDir(st, d) && TargetsLinked(st.files, st.files[d].bytes)
  }

  ghost predicate TargetsLinked(files: seq<File>, bytes: seq<Byte>)
  {
    forall k {:trigger EntryAt(bytes, k)} :: 0 <= k < Count(bytes) && EntryAt(bytes, k).inum != 0 ==>
      Linked(files, EntryAt(bytes, k).inum)
  }

  lemma LinkedTargetsOk(files: seq<File>, bytes: seq<Byte>)
    requires TargetsLinked(files, bytes)
    ensures TargetsOk(files, bytes)
  {
    hide EntryAt;
  }

  /** Nothing has changed but in the inode table: the caller holds the references `held`. */
  ghost predicate Walked(st: State, st': State, held: multiset<nat>) { Holding(st, st', held) && SameDisk(st, st') }

  lemma WalkedAfterPut(st: State, st1: State, st2: State, held: multiset<nat>, i: nat)
    requires Inv(st, 0) && Walked(st, st1, held) && i in held && PutOk(st1, st2, i)
    requires Linked(st1.files, i) || i in st.slots
    ensures Walked(st, st2, held - multiset{i})
  {
    hide Inv, Holding, PutOk, LastPut, BlocksOf;
    HoldAfterPut(st, st1, st2, held, i);
    PutExists(st1, st2, i);
    UnreferencedIsSynced(st, i);
    PutLeavesNoTrace(st, st1, st2, held, i);
  }

  lemma WalkedTree(st: State, st1: State, held: multiset<nat>, d: nat)
    requires Inv(st, 0) && Walked(st, st1, held) && TreeOk(st) && IsDirFile(st.files, d)
    ensures IsDir(st1, d) && TargetsOk(st1.files, BytesOf(st1.files, d))
      && TargetsLinked(st1.files, BytesOf(st1.files, d))
  {
    hide Inv, EntryAt, DirOk;
    assert IsDirFile(st.files, d);
    LengthsAgree(st);
    LengthsAgree(st1);
    LinkedTargetsOk(st1.files, BytesOf(st1.files, d));
  }

  // ---------- namex ----------

  /** The walker stands at inode `i`, through its own reference. */
  ghost predicate Standing(st: State, st': State, i: nat)
  {
    && Inv(st, 0) && TreeOk(st)
    && Walked(st, st', multiset{i}) && i in st'.slots && i != 0 && (Linked(st.files, i) || i in st.slots)
  }

  lemma StandingFacts(st: State, st1: State, i: nat)
    requires Standing(st, st1, i)
    ensures Inv(st1, 0) && |st1.itable| == NINODE && st1.slots.Keys == st.slots.Keys + {i} && st1.files == st.files
    ensures i in st1.slots && st1.slots[i] < NINODE && st1.itable[st1.slots[i]].ref > 0
      && st1.itable[st1.slots[i]].inum == i
    ensures 0 < i < |st1.files| && st1.files[i].File?
  {
    hide Inv, TreeOk;
    HeldIsReferenced(st, st1, multiset{i}, i);
    HoldingKeys(st, st1, multiset{i});
    HeldIfReferenced(st1, i);
    LengthsAgree(st1);
    TypeOfFile(st1, i);
  }

  /** Locks the inode, and tells whether it is a directory. */
  method LockAndTest(fs: FileSystem, ip: nat, ghost i: nat, ghost st: State) returns (isDir: bool)
    requires fs.store.Valid() && Standing(st, fs.St(), i) && i in fs.slots && fs.slots[i] == ip
      && |fs.store.pins| < NBUF
    modifies fs`itable, fs.store`pins
    ensures fs.store.pins == old(fs.store.pins) && Standing(st, fs.St(), i) && fs.At(ip, i)
    ensures isDir <==> IsDirFile(st.files, i)
  {
    hide Views, Inv, Standing, LockOk;
    ghost var st1 := fs.St();
    StandingFacts(st, st1, i);
    fs.ILock(ip);
    LockedStanding(st, st1, fs.St(), i);
    isDir := fs.itable[ip].d.typ == T_DIR;
  }

  lemma LockedStanding(st: State, st1: State, st2: State, i: nat)
    requires Standing(st, st1, i) && LockOk(st1, st2, i)
    ensures Standing(st, st2, i) && Cached(st2.itable, st2.slots, i) && st2.slots == st1.slots && st2.files == st.files
    ensures st2.slots[i] < |st2.itable| && i < |st.files| && st.files[i].File?
    ensures st2.itable[st2.slots[i]].d.typ == st.files[i].typ
  {
    hide Inv, TreeOk, Holding;
    HoldAfterLock(st, st1, st2, multiset{i}, i);
    HeldFacts(st2, i);
    TypeOfFile(st2, i);
  }

  /** There is a table entry for the inode that a name leads to from directory `i`, the walker
      holding one for `i` itself. */
  predicate StepRoom(keys: set<nat>, files: seq<File>, i: nat, name: Name)
  {
    LookupIn(files, i, name) == 0 || RoomFor(keys + {i}, LookupIn(files, i, name))
  }

  lemma StepHasRoom(st: State, st1: State, i: nat, name: Name)
    requires Standing(st, st1, i) && IsDirFile(st.files, i) && StepRoom(st.slots.Keys, st.files, i, name)
    ensures LookupRoom(st1.files, st1.slots.Keys, i, name)
  {
    StandingFacts(st, st1, i);
    WalkedTree(st, st1, multiset{i}, i);
    hide Inv, TreeOk, Standing, EntryAt, DirMap;
    if name in DirMap(BytesOf(st.files, i)) { BoundTargetLinked(st.files, BytesOf(st.files, i), name); }
  }

  /** There are table entries for all inodes on the way of a walk, those of `keys` having
      theirs already.  The walker never holds more than two at a time. */
  predicate WalkRoom(keys: set<nat>, files: seq<File>, cur: nat, els: seq<Name>, parent: bool)
    decreases |els|
  {
    els == [] || !IsDirFile(files, cur) || (parent && |els| == 1)
    || (StepRoom(keys, files, cur, els[0])
        && (LookupIn(files, cur, els[0]) == 0 || WalkRoom(keys, files, LookupIn(files, cur, els[0]), els[1..], parent)))
  }

  /** ... and for the inode it starts from. */
  predicate NameRoom(keys: set<nat>, files: seq<File>, start: nat, els: seq<Name>, parent: bool)
  {
    RoomFor(keys, start) && WalkRoom(keys, files, start, els, parent)
  }

  /** A walk without that room gets to a directory where the next iget panics. */
  lemma {:induction false} WalkPanics(st: State, cur: nat, els: seq<Name>, parent: bool) returns (k: nat)
    requires !WalkRoom(st.slots.Keys, st.files, cur, els, parent)
    ensures k < |els| && IsDirFile(st.files, Resolve(st.files, cur, els[..k]))
    ensures LookupIn(st.files, Resolve(st.files, cur, els[..k]), els[k]) != 0
    ensures forall st1 :: Standing(st, st1, Resolve(st.files, cur, els[..k])) ==>
      GetPanics(st1.itable, LookupIn(st.files, Resolve(st.files, cur, els[..k]), els[k]))
    decreases |els|
  {
    hide LookupIn, Standing, GetPanics, Inv;
    k := 0;
    if StepRoom(st.slots.Keys, st.files, cur, els[0]) {
      var n := LookupIn(st.files, cur, els[0]);
      var j := WalkPanics(st, n, els[1..], parent);
      k := j + 1;
      assert els[..k][0] == els[0] && els[..k][1..] == els[1..][..j];
    }
    var d := Resolve(st.files, cur, els[..k]);
    forall st1 | Standing(st, st1, d) ensures GetPanics(st1.itable, LookupIn(st.files, d, els[k])) {
      StandingFacts(st, st1, d);
      GetPanicsIff(st1, LookupIn(st.files, d, els[k]));
    }
  }

  /** One descent: look the name up in the directory, and drop the directory. */
  method Enter(fs: FileSystem, ip: nat, name: seq<Byte>, ghost i: nat, ghost st: State) returns (next: nat)
    requires fs.store.Valid() && Standing(st, fs.St(), i) && fs.At(ip, i)
    requires IsDirFile(st.files, i) && |fs.store.pins| + 3 <= NBUF
      && StepRoom(st.slots.Keys, st.files, i, Cut(name, DIRSIZ))
    modifies fs, fs.store
    ensures fs.store.Valid() && fs.store.pins == old(fs.store.pins)
    ensures Entered(st, fs.St(), LookupIn(st.files, i, Cut(name, DIRSIZ)), next)
  {
    hide Views, Inv, Standing, LookupOk, IsDir, TargetsOk, Entered, LookupIn, PutOk, Cut, StepRoom, LookupRoom;
    ghost var st1 := fs.St();
    StandingFacts(st, st1, i);
    StandingTree(st, st1, i);
    assert LookupRoom(st1.files, st1.slots.Keys, i, Cut(name, DIRSIZ)) by {
      StepHasRoom(st, st1, i, Cut(name, DIRSIZ));
    }
    var found, ip2, off := DirLookup(fs, ip, name, i);
    ghost var st2 := fs.St();
    EnterFacts(st, st1, st2, i, Cut(name, DIRSIZ), found, ip2, off);
    fs.IPut(ip);
    EnterDone(st, st1, st2, fs.St(), i, Cut(name, DIRSIZ), found, ip2, off);
    next := if found then ip2 else NINODE;
  }

  /** After a descent: at inode `n` through entry `ip`, or nowhere when n == 0. */
  ghost predicate Entered(st: State, st': State, n: nat, ip: nat)
  {
    if n == 0 then ip == NINODE && Walked(st, st', multiset{})
    else ip < NINODE && Standing(st, st', n) && Linked(st.files, n) && st'.slots[n] == ip
  }

  lemma StandingTree(st: State, st1: State, i: nat)
    requires Standing(st, st1, i) && IsDirFile(st.files, i)
    ensures IsDir(st1, i) && TargetsOk(st1.files, BytesOf(st1.files, i))
  {
    hide Inv, TreeOk, Walked, IsDir, TargetsOk;
    WalkedTree(st, st1, multiset{i}, i);
  }

  lemma EnterFacts(st: State, st1: State, st2: State, i: nat, name: Name, found: bool, ip: nat, off: nat)
    requires Standing(st, st1, i) && LookupOk(st1, st2, i, name, found, ip, off)
    ensures Inv(st2, 0) && |st2.itable| == NINODE && i in st2.slots && st2.slots[i] == st1.slots[i] < NINODE
    ensures st2.itable[st1.slots[i]].ref > 0 && st2.itable[st1.slots[i]].inum == i
  {
    StandingFacts(st, st1, i);
    hide Inv, TreeOk, EntryAt, Standing;
    ReferencedIffPositive(st1);
    ReferencedIffPositive(st2);
    SlotsOfReferenced(st2);
    assert RefOf(st2.itable, st2.slots, i) >= RefOf(st1.itable, st1.slots, i);
  }

  lemma EnterDone(st: State, st1: State, st2: State, st3: State, i: nat, name: Name, found: bool, ip: nat, off: nat)
    requires Standing(st, st1, i) && IsDirFile(st.files, i) && LookupOk(st1, st2, i, name, found, ip, off)
      && PutOk(st2, st3, i)
    ensures Entered(st, st3, LookupIn(st.files, i, name), if found then ip else NINODE)
  {
    hide Inv, TreeOk, EntryAt, PutOk, DirMap, GetOk, Holding, DirOk, TargetsOk, TargetsLinked;
    WalkedTree(st, st1, multiset{i}, i);
    LookupIsTheMap(st1, st2, i, name, found, ip, off);
    if found {
      var n := DirMap(BytesOf(st1.files, i))[name];
      BoundTargetLinked(st1.files, BytesOf(st1.files, i), name);
      HoldAfterGet(st, st1, st2, multiset{i}, n, ip);
      WalkedAfterPut(st, st2, st3, multiset{i} + multiset{n}, i);
      assert multiset{i} + multiset{n} - multiset{i} == multiset{n};
      KeptSlot(st, st2, st3, multiset{i} + multiset{n}, i, n);
      GetOkFacts(st1, st2, n, ip);
    } else {
      WalkedAfterPut(st, st1, st3, multiset{i}, i);
      assert multiset{i} - multiset{i} == multiset{};
    }
  }

  lemma BoundTargetLinked(files: seq<File>, bytes: seq<Byte>, name: Name)
    requires TargetsLinked(files, bytes) && name in DirMap(bytes)
    ensures Linked(files, DirMap(bytes)[name])
  {
    hide EntryAt;
    var k := BoundByEntry(bytes, Count(bytes), name);
  }

  /** What namex promises, for the path elements `els` from inode `start`: the resolved
      inode through its entry with exactly one more reference, or nothing and no reference. */
  ghost predicate Named(st: State, st': State, t: nat, ip: nat)
  {
    if t == 0 then ip == NINODE && Walked(st, st', multiset{})
    else ip < NINODE && Standing(st, st', t) && st'.slots[t] == ip
  }

  function Goal(files: seq<File>, cur: nat, els: seq<Name>, parent: bool): nat
  {
    if parent then ResolveParent(files, cur, els) else Resolve(files, cur, els)
  }

  /** What is left of a path. */
  ghost predicate Suffix(els: seq<Name>, all: seq<Name>) { |els| <= |all| && els == all[|all| - |els|..] }

  lemma WholeIsSuffix(all: seq<Name>)
    ensures Suffix(all, all)
  {
  }

  lemma SuffixFacts(els: seq<Name>, all: seq<Name>)
    requires Suffix(els, all) && els != []
    ensures Suffix(els[1..], all) && all != [] && els[|els| - 1] == all[|all| - 1]
  {
  }

  /** The walk of namex from inode `i`, reached through `ip`. */
  method Walk(fs: FileSystem, path: seq<Byte>, parent: bool, ip0: nat, ghost i0: nat, ghost st: State)
    returns (ip: nat, name: seq<Byte>)
    requires NoNul(path) && fs.store.Valid() && |fs.store.pins| + 3 <= NBUF
    requires Standing(st, fs.St(), i0) && fs.slots[i0] == ip0
      && WalkRoom(st.slots.Keys, st.files, i0, Elements(path), parent)
    modifies fs, fs.store
    ensures fs.store.Valid() && fs.store.pins == old(fs.store.pins)
    ensures Named(st, fs.St(), Goal(st.files, i0, Elements(path), parent), ip)
    ensures parent && ip < NINODE ==> Elements(path) != [] && Cut(name, DIRSIZ) == Elements(path)[|Elements(path)| - 1]
  {
    hide Views, Inv, Standing, Walked, Elements, Cut, Entered, LookupIn, StepRoom, Goal, WalkRoom, IsDirFile,
         Suffix;
    ip, name := ip0, seq(DIRSIZ, _ => 0);
    var pos := 0;
    ghost var (i, all) := (i0, Elements(path));
    assert path[0..] == path;
    WholeIsSuffix(all);
    StandingFacts(st, fs.St(), i0);
    while true
      invariant pos <= |path| && fs.store.Valid() && fs.store.pins == old(fs.store.pins) && |name| == DIRSIZ
      invariant Standing(st, fs.St(), i) && i in fs.slots && fs.slots[i] == ip
      invariant Goal(st.files, i0, all, parent) == Goal(st.files, i, Elements(path[pos..]), parent)
      invariant WalkRoom(st.slots.Keys, st.files, i, Elements(path[pos..]), parent)
      invariant Suffix(Elements(path[pos..]), all)
      decreases |path| - pos
    {
      ghost var els := Elements(path[pos..]);
      var more, next, name' := SkipElem(path, pos, name);
      name := name';
      if !more { break; }
      ghost var rest := Elements(path[next..]);
      assert els[0] == Cut(name, DIRSIZ) && els[1..] == rest;
      SuffixFacts(els, all);
      var isDir := LockAndTest(fs, ip, i, st);
      if !isDir {
        NoWayOn(st.files, i, els, parent);
        PutWalker(fs, ip, i, st);
        return NINODE, name;
      }
      WayOn(st.slots.Keys, st.files, i, els, parent);
      if parent && next == |path| {
        StandingFacts(st, fs.St(), i);
        return;
      }
      var ip2 := Enter(fs, ip, name, i, st);
      ghost var n := LookupIn(st.files, i, els[0]);
      EnteredFacts(st, fs.St(), n, ip2);
      if ip2 == NINODE { return NINODE, name; }
      ip, pos, i := ip2, next, n;
    }
    StandingFacts(st, fs.St(), i);
    assert Elements(path[pos..]) == [];
    WayEnds(st.files, i, parent);
    if parent {
      PutWalker(fs, ip, i, st);
      ip := NINODE;
    }
  }

  lemma NoWayOn(files: seq<File>, i: nat, els: seq<Name>, parent: bool)
    requires els != [] && !IsDirFile(files, i)
    ensures Goal(files, i, els, parent) == 0
  {
  }

  /** One element of a walk. */
  lemma WayOn(keys: set<nat>, files: seq<File>, i: nat, els: seq<Name>, parent: bool)
    requires els != [] && IsDirFile(files, i) && WalkRoom(keys, files, i, els, parent)
    ensures parent && |els| == 1 ==> Goal(files, i, els, parent) == i
    ensures var n := LookupIn(files, i, els[0]); !(parent && |els| == 1) ==>
      StepRoom(keys, files, i, els[0]) && (n != 0 ==> WalkRoom(keys, files, n, els[1..], parent))
      && Goal(files, i, els, parent) == if n == 0 then 0 else Goal(files, n, els[1..], parent)
  {
    hide LookupIn, StepRoom;
  }

  lemma WayEnds(files: seq<File>, i: nat, parent: bool)
    ensures Goal(files, i, [], parent) == if parent then 0 else i
  {
  }

  lemma EnteredFacts(st: State, st': State, n: nat, ip: nat)
    requires Entered(st, st', n, ip)
    ensures (ip == NINODE <==> n == 0) && ip <= NINODE
    ensures n == 0 ==> Walked(st, st', multiset{})
    ensures n != 0 ==> Standing(st, st', n) && n in st'.slots && st'.slots[n] == ip
  {
    hide Walked, Inv, TreeOk;
  }

  /** The walker lets go of its inode. */
  method PutWalker(fs: FileSystem, ip: nat, ghost i: nat, ghost st: State)
    requires fs.store.Valid() && Standing(st, fs.St(), i) && i in fs.slots && fs.slots[i] == ip
      && |fs.store.pins| + 3 <= NBUF
    modifies fs, fs.store
    ensures fs.store.Valid() && fs.store.pins == old(fs.store.pins) && Walked(st, fs.St(), multiset{})
  {
    hide Views, Inv, Standing, Walked, PutOk;
    ghost var st1 := fs.St();
    StandingFacts(st, st1, i);
    fs.IPut(ip);
    PutStanding(st, st1, fs.St(), i);
  }

  lemma PutStanding(st: State, st1: State, st2: State, i: nat)
    requires Standing(st, st1, i) && PutOk(st1, st2, i)
    ensures Walked(st, st2, multiset{})
  {
    hide Inv, TreeOk, Holding;
    WalkedAfterPut(st, st1, st2, multiset{i}, i);
    assert multiset{i} - multiset{i} == multiset{};
  }

  /** Where a path starts: the root, or the current directory. */
  function StartOf(path: seq<Byte>, cwd: nat): nat { if CharAt(path) == SLASH then ROOTINO else cwd }

  /** namex(path, parent, name): namei when `parent` is false, nameiparent when it is true.
      The result is an entry of the table, or NINODE; `cwd` is the current directory's. */
  method NameX(fs: FileSystem, path: seq<Byte>, parent: bool, cwd: nat, ghost c: nat) returns (ip: nat, name: seq<Byte>)
    requires NoNul(path) && fs.store.Valid() && |fs.store.pins| + 3 <= NBUF
    requires Inv(fs.St(), 0) && TreeOk(fs.St()) && Linked(fs.files, ROOTINO) && c in fs.slots && fs.slots[c] == cwd
    requires NameRoom(fs.slots.Keys, fs.files, StartOf(path, c), Elements(path), parent)
    modifies fs, fs.store
    ensures fs.store.Valid() && fs.store.pins == old(fs.store.pins)
    ensures Named(old(fs.St()), fs.St(), Goal(old(fs.files), StartOf(path, c), Elements(path), parent), ip)
    ensures parent && ip < NINODE ==> Elements(path) != [] && Cut(name, DIRSIZ) == Elements(path)[|Elements(path)| - 1]
  {
    hide Views, Inv, TreeOk, Walked, GetOk, Elements, Cut, WalkRoom;
    ghost var (st, start) := (fs.St(), StartOf(path, c));
    var first: nat;
    if CharAt(path) == SLASH {
      LinkedAllocated(st, ROOTINO);
      first := fs.IGet(ROOTINO);
    } else {
      SlotsOfReferenced(st);
      first := cwd;
      fs.IDup(cwd);
    }
    WalkGetFrom(st, fs.St(), start, first);
    ip, name := Walk(fs, path, parent, first, start, st);
  }

  lemma LinkedAllocated(st: State, i: nat)
    requires Inv(st, 0) && Linked(st.files, i)
    ensures Allocated(st.live, i)
  {
    hide Inv;
    LengthsAgree(st);
    TypeOfFile(st, i);
  }

  lemma WalkGetFrom(st: State, st1: State, i: nat, ip: nat)
    requires Inv(st, 0) && TreeOk(st) && GetOk(st, st1, i, ip) && (Linked(st.files, i) || i in st.slots)
    ensures Standing(st, st1, i) && i in st1.slots && st1.slots[i] == ip
  {
    hide Inv, TreeOk, GetOk, Holding;
    HoldNothing(st);
    HoldAfterGet(st, st, st1, multiset{}, i, ip);
    ReferencedIffPositive(st);
    assert multiset{} + multiset{i} == multiset{i};
  }
}
