/** A run of the server that gives one file as many names as its 16-bit link count can hold,
    and one more: the input behind Links.LinkKeepsLinks. */
module Overflow {
  import opened Layout
  import opened BlockTree
  import opened BlockStore
  import opened Invariant
  import opened Space
  import opened Directory
  import opened DirectoryOps
  import opened FileSystem
  import opened Path
  import opened References
  import opened Namei
  import opened Links
  import opened OpenFiles
  import opened Server
  import opened Image
  import opened Examples
  import Sysfile

  const MOST: nat := 0x7fff
  const NAMES: nat := 0x8000
  const PLENTY: nat := 7000

  // ---------- names enough ----------

  /** Names of three bytes. */
  function NameOf(k: nat): Name { [97 + k / 1024 % 32, 97 + k / 32 % 32, 97 + k % 32] }

  function PathOf(k: nat): seq<Byte> { [SLASH] + NameOf(k) }

  lemma NamesDiffer(j: nat, k: nat)
    requires j < NAMES && k < NAMES && j != k
    ensures NameOf(j) != NameOf(k)
  {
    Digits(j);
    Digits(k);
    var (m, n) := (NameOf(j), NameOf(k));
    hide NameOf;
  }

  lemma Digits(k: nat)
    requires k < NAMES
    ensures var n := NameOf(k); |n| == 3 && k + 102529 == 1024 * n[0] as int + 32 * n[1] as int + n[2] as int
  {
    var q := k / 32;
    assert k / 1024 == q / 32;
    assert q == 32 * (q / 32) + q % 32;
  }

  lemma {:induction false} NoSlashIn(p: seq<Byte>)
    requires forall k :: 0 <= k < |p| ==> p[k] != SLASH
    ensures ElementLength(p) == |p|
  {
    if p != [] { NoSlashIn(p[1..]); }
  }

  lemma OneName(k: nat, c: nat)
    ensures NoNul(PathOf(k)) && Elements(PathOf(k)) == [NameOf(k)] && StartOf(PathOf(k), c) == ROOTINO
  {
    var (p, n) := (PathOf(k), NameOf(k));
    assert p[1..] == n && n[0] != SLASH && |n| == 3;
    assert DropSlashes(p) == n by { assert DropSlashes(n) == n; }
    NoSlashIn(n);
    hide ElementLength, DropSlashes;
    assert n[..3] == n && n[3..] == [];
    assert Elements([]) == [] by { assert DropSlashes([]) == []; }
  }

  // ---------- space enough ----------

  function BlocksFor(size: nat): nat { (size + BSIZE - 1) / BSIZE }

  /** The root is not too large, and what it may still take is free. */
  ghost predicate Spacious(st: State, k: nat)
  {
    var size := |BytesOf(st.files, ROOTINO)|;
    size <= BSIZE + RECSIZE * k && |Unmarked(st)| + 3 * BlocksFor(size) >= PLENTY
  }

  lemma EndIsOneBlock(off: nat)
    requires off % RECSIZE == 0
    ensures SlotsIn(off, RECSIZE) == SlotOf(off / BSIZE).Path() && |SlotsIn(off, RECSIZE)| <= 3
  {
    hide SlotOf;
    assert (off + RECSIZE - 1) / BSIZE == off / BSIZE;
    assert BlockSlots(off / BSIZE, off / BSIZE) == {};
    PathIsShort(SlotOf(off / BSIZE));
  }

  /** An entry at the end of the root needs three blocks at most, and none unless a block of
      the root begins there. */
  lemma EndNeeds(st: State)
    requires Inv(st, 0) && IsDir(st, ROOTINO) && |BytesOf(st.files, ROOTINO)| % RECSIZE == 0
    ensures |Wanted(st, ROOTINO, EndSlots(st, ROOTINO))| <= 3
    ensures |BytesOf(st.files, ROOTINO)| % BSIZE != 0 ==> Wanted(st, ROOTINO, EndSlots(st, ROOTINO)) == {}
  {
    hide Inv, Ptr, SlotOf, SlotsIn, Dense, RangeMapped, DirOk;
    var size := |BytesOf(st.files, ROOTINO)|;
    EndIsOneBlock(size);
    SlotSubset(Wanted(st, ROOTINO, EndSlots(st, ROOTINO)), EndSlots(st, ROOTINO));
    if size % BSIZE != 0 {
      SolidIsDense(st, 0, ROOTINO);
      TypeOfFile(st, ROOTINO);
      DenseIsMapped(st.data, st.live[ROOTINO], size - 1, 1);
      NoZeroBlock(st, 0);
      MappedRangeHasWays(st.data, st.live[ROOTINO], size - 1, 1);
      OneByteSlots(size - 1);
      assert (size - 1) / BSIZE == size / BSIZE;
    }
  }

  lemma RootFacts(s: Sys)
    requires SysOk(s)
    ensures Inv(s.st, 0) && IsDir(s.st, ROOTINO) && |BytesOf(s.st.files, ROOTINO)| % RECSIZE == 0 && LinksOk(s.st.files)
    ensures ROOTINO in s.st.slots && IsDirFile(s.st.files, ROOTINO)
  {
    RootOfSys(s);
    RootIsDirOk(s);
    hide Inv, TablesOk, LinksOk, DirOk;
  }

  lemma SpaciousPlace(s: Sys, k: nat)
    requires SysOk(s) && Spacious(s.st, k) && k < NAMES
    ensures HasPlace(s.st, ROOTINO)
  {
    RootFacts(s);
    EndNeeds(s.st);
    hide SysOk, Unmarked, Wanted, EndSlots, NoEmptyEntry, IsDir;
  }

  /** Taking an entry keeps it so. */
  lemma StaysSpacious(s: Sys, st': State, n: Name, t: nat, k: nat)
    requires SysOk(s) && Spacious(s.st, k) && k < NAMES && Extended(s.st, st', ROOTINO) && Inv(st', 0)
    requires FirstEmptyTaken(BytesOf(s.st.files, ROOTINO), BytesOf(st'.files, ROOTINO), n, t)
    ensures Spacious(st', k + 1)
  {
    hide SysOk, Inv, Unmarked, Wanted, EndSlots, NoEmptyEntry, IsDir, Taken, HasPlace, FirstEmptyTaken, Extended;
    SpaciousPlace(s, k);
    RootFacts(s);
    EndNeeds(s.st);
    var (bytes, bytes') := (BytesOf(s.st.files, ROOTINO), BytesOf(st'.files, ROOTINO));
    SizeAfter(bytes, bytes', n, t);
    UnmarkedAfter(s.st, st');
    OneEntryMore(|bytes|);
  }

  lemma OneEntryMore(size: nat)
    requires size % RECSIZE == 0
    ensures BlocksFor(size + RECSIZE) == BlocksFor(size) + if size % BSIZE == 0 then 1 else 0
  {
  }

  lemma SizeAfter(bytes: seq<Byte>, bytes': seq<Byte>, n: Name, t: nat)
    requires FirstEmptyTaken(bytes, bytes', n, t)
    ensures |bytes'| == if NoEmptyEntry(bytes) then |bytes| + RECSIZE else |bytes|
  {
    hide EntryAt;
  }

  lemma UnmarkedAfter(st: State, st': State)
    requires Extended(st, st', ROOTINO) && HasPlace(st, ROOTINO) && Inv(st', 0)
    ensures |Unmarked(st')| == |Unmarked(st)| -
      if !NoEmptyEntry(BytesOf(st.files, ROOTINO)) || |BytesOf(st.files, ROOTINO)| + RECSIZE > MAXBYTES then 0
      else |Wanted(st, ROOTINO, EndSlots(st, ROOTINO))|
  {
    hide HasPlace, EndSlots, Wanted, NoEmptyEntry, TableOk, FilesOk, Ptr;
    assert Unmarked(st') == Unmarked(st) - Taken(st, st');
    forall b | b in Taken(st, st') ensures b in Unmarked(st) {
      assert NewIn(st, st', b, ROOTINO, EndSlots(st, ROOTINO));
    }
    LeftOver(Unmarked(st), Taken(st, st'));
  }

  // ---------- the run ----------

  /** Nothing is open; file `t` has the first `k` names and no others. */
  ghost predicate Linking(s: Sys, t: nat, k: nat)
  {
    && SysOk(s) && s.st.slots.Keys == {ROOTINO} && 1 <= k <= MOST && Spacious(s.st, k)
    && 0 < t < |s.st.files| && t != ROOTINO && s.st.files[t].File? && s.st.files[t].nlink == k
    && NameOf(0) in RootMap(s.st.files) && RootMap(s.st.files)[NameOf(0)] == t
    && forall j: nat {:trigger NameOf(j)} :: k <= j < NAMES ==> NameOf(j) !in RootMap(s.st.files)
  }

  /** The next link finds all it needs. */
  lemma CanLink(s: Sys, t: nat, k: nat)
    requires Linking(s, t, k)
    ensures Sysfile.LinkRoom(s.st.slots.Keys, s.st.files, ROOTINO, [NameOf(0)], ROOTINO, [NameOf(k)])
    ensures Resolve(s.st.files, ROOTINO, [NameOf(0)]) == t && LinkCount(s.st.files, t) == k
    ensures !IsDirFile(s.st.files, t) && !Sysfile.NameRefused(s.st.files, ROOTINO, [NameOf(k)])
    ensures HasPlace(s.st, ROOTINO)
  {
    hide SysOk, Spacious, RootMap, NameOf, HasPlace;
    RootFacts(s);
    SpaciousPlace(s, k);
    assert |{ROOTINO}| == 1;
    Sysfile.TwoEntriesSuffice(s.st.slots.Keys, s.st.files, ROOTINO, [NameOf(0)], ROOTINO, [NameOf(k)]);
    ResolvesTo(s.st.files, NameOf(0));
    ParentOfOne(s.st.files, NameOf(k));
    assert !IsDirFile(s.st.files, t) by { OnlyRoot(s.st.files, t); }
    hide Sysfile.LinkRoom, Resolve, ResolveParent;
  }

  lemma OnlyRoot(files: seq<File>, t: nat)
    requires LinksOk(files) && t != ROOTINO
    ensures !IsDirFile(files, t)
  {
    hide RootMap;
  }

  /** It succeeds, and the file has a name more. */
  lemma OneNameMore(s: Sys, s': Sys, t: nat, k: nat, r: int)
    requires Linking(s, t, k) && s' == s.(st := s'.st)
    requires Sysfile.LinkCallOk(s.st, s'.st, t, ROOTINO, [NameOf(k)], r)
    ensures r == 0 && (SysOk(s') && k < MOST ==> Linking(s', t, k + 1))
  {
    hide SysOk, Linking, Sysfile.LinkDone, Sysfile.LinkCallOk, NameOf;
    LinkIsDone(s, s', t, k, r);
    if SysOk(s') && k < MOST { LinkedMore(s, s', t, k); }
  }

  lemma LinkIsDone(s: Sys, s': Sys, t: nat, k: nat, r: int)
    requires Linking(s, t, k) && Sysfile.LinkCallOk(s.st, s'.st, t, ROOTINO, [NameOf(k)], r)
    ensures r == 0 && Sysfile.LinkDone(s.st, s'.st, t, NameOf(k))
  {
    hide SysOk, RootMap, NameOf, HasPlace, Sysfile.NameRefused, Sysfile.LinkDone, Spacious, Sysfile.SameView, Extended;
    CanLink(s, t, k);
    assert [NameOf(k)][|[NameOf(k)]| - 1] == NameOf(k);
    assert t != 0;
  }

  lemma LinkedMore(s: Sys, s': Sys, t: nat, k: nat)
    requires Linking(s, t, k) && SysOk(s') && s' == s.(st := s'.st) && k < MOST
    requires Sysfile.LinkDone(s.st, s'.st, t, NameOf(k))
    ensures Linking(s', t, k + 1)
  {
    hide SysOk, RootMap, NameOf, Sysfile.LinkDone, Spacious, Extended, Holding, FirstEmptyTaken, Inv;
    RootFacts(s);
    RootFacts(s');
    DoneParts(s.st, s'.st, t, NameOf(k));
    HoldingKeys(s.st, s'.st, multiset{});
    assert Distinct(multiset{}) == {};
    StaysSpacious(s, s'.st, NameOf(k), t, k);
    forall j: nat | k < j < NAMES ensures NameOf(j) !in RootMap(s'.st.files) { NamesDiffer(j, k); }
    NamesDiffer(0, k);
  }

  lemma DoneParts(st: State, st': State, t: nat, n: Name)
    requires Sysfile.LinkDone(st, st', t, n) && IsDirFile(st.files, ROOTINO)
    ensures RootMap(st'.files) == RootMap(st.files)[n := t] && Holding(st, st', multiset{})
    ensures t < |st.files| == |st'.files| && st.files[t].File? && st'.files[t].File?
    ensures st'.files[t].nlink == Bumped(st.files[t].nlink, 1) && Extended(st, st', ROOTINO)
    ensures FirstEmptyTaken(BytesOf(st.files, ROOTINO), BytesOf(st'.files, ROOTINO), n, t)
  {
    hide RootMap, NsOk, Extended, Holding, FirstEmptyTaken, Tidy;
  }

  /** Format, create a file, and link it under names until its count is at its greatest. */
  method LinkTooOften(disk: seq<Block>) returns (server: Server, ghost t: nat)
    requires |disk| == FSSIZE
    ensures !server.Valid() && t < |server.fs.files| && server.fs.files[t].File? && server.fs.files[t].nlink == -0x8000
  {
    hide Views, SysOk, Elements, Sysfile.LinkRoom, Sysfile.LinkCallOk, Linking, PathOf, NameOf;
    server, t := FirstName(disk);
    var k := 1;
    while k < MOST
      invariant 1 <= k <= MOST && server.Valid() && Linking(server.S(), t, k)
      invariant fresh(server) && fresh(server.fs) && fresh(server.fs.store)
    {
      var r := LinkOnce(server, t, k);
      k := k + 1;
    }
    ghost var s := server.S();
    var r := LinkOnce(server, t, MOST);
    CountTurns(s, server.S(), t, r);
  }

  /** One link call. */
  method LinkOnce(server: Server, ghost t: nat, k: nat) returns (r: int)
    requires server.Valid() && Linking(server.S(), t, k)
    modifies server.fs, server.fs.store
    ensures server.fs.store.Valid() && server.fs.store.pins == multiset{}
    ensures server.S() == old(server.S()).(st := server.fs.St())
    ensures Sysfile.LinkCallOk(old(server.fs.St()), server.fs.St(), t, ROOTINO, [NameOf(k)], r)
    ensures if k < MOST then server.Valid() && Linking(server.S(), t, k + 1) else !server.Valid()
  {
    hide Views, SysOk, Elements, Sysfile.LinkRoom, Sysfile.LinkCallOk, Linking, PathOf, NameOf, HasPlace,
         Sysfile.NameRefused;
    ghost var s := server.S();
    OneName(0, server.c);
    OneName(k, server.c);
    LinkingBounds(s, t, k);
    CanLink(s, t, k);
    ghost var t';
    r, t' := server.Link(PathOf(0), PathOf(k));
    OneNameMore(s, server.S(), t, k, r);
  }

  lemma LinkingBounds(s: Sys, t: nat, k: nat)
    requires Linking(s, t, k)
    ensures 1 <= k <= MOST && IsDirFile(s.st.files, ROOTINO)
    ensures t < |s.st.files| && s.st.files[t].File? && s.st.files[t].nlink == k
  {
    hide SysOk, Spacious, RootMap;
    RootFacts(s);
  }

  /** The count that was at its greatest is at its least. */
  lemma CountTurns(s: Sys, s': Sys, t: nat, r: int)
    requires Linking(s, t, MOST) && Sysfile.LinkCallOk(s.st, s'.st, t, ROOTINO, [NameOf(MOST)], r)
    ensures t < |s'.st.files| && s'.st.files[t].File? && s'.st.files[t].nlink == -0x8000
  {
    hide SysOk, RootMap, NameOf, Sysfile.LinkDone, Sysfile.LinkCallOk, Linking, IsDirFile, Extended, FirstEmptyTaken,
         Holding, Bumped;
    LinkingBounds(s, t, MOST);
    LinkIsDone(s, s', t, MOST, r);
    DoneParts(s.st, s'.st, t, NameOf(MOST));
    assert Bumped(MOST, 1) == -0x8000 by { TurnsOver(); }
  }

  lemma TurnsOver()
    ensures Bumped(0x7fff, 1) == -0x8000
  {
  }

  /** Format, create the file under its first name, and close it. */
  method FirstName(disk: seq<Block>) returns (server: Server, ghost t: nat)
    requires |disk| == FSSIZE
    ensures fresh(server) && fresh(server.fs) && fresh(server.fs.store) && server.Valid()
    ensures Linking(server.S(), t, 1)
  {
    Flags();
    hide Flag, Views, SysOk, Elements, OpenOk, OpenRoom, CloseOk, RootMap, Seen, Linking, PathOf, NameOf, Below;
    server := Start(disk);
    ghost var s0 := server.S();
    OneName(0, server.c);
    NothingLoose(s0);
    RoomAtRoot(s0, NameOf(0));
    ManyUnmarked(server.fs.store, server.fs.St());
    var r, ip, dangles;
    ghost var f, st1;
    r, ip, dangles, f, t, st1 := server.Open(PathOf(0), NEWFILE);
    ghost var (s1, r1) := (server.S(), r);
    r := server.Close(3);
    StartsLinking(s0, s1, server.S(), st1, r1, r, f, ip, t);
  }

  lemma ManyUnmarked(store: Store, st: State)
    requires store.Valid() && store.geo == Geo() && store.marked == Below(USED)
    requires st.data == store.data && st.marked == store.marked
    ensures |Unmarked(st)| >= PLENTY
  {
    hide Views, Below;
    Numbers();
    DataBlocks(store);
    BelowFacts(USED);
    BelowFacts(8000);
    BelowFacts(100);
    var some := Below(8000) - Below(100);
    forall b | b in Below(100) ensures b in Below(8000) { }
    LeftOver(Below(8000), Below(100));
    forall b | b in some ensures b in Unmarked(st) { assert b in store.data && b !in store.marked; }
    hide Unmarked;
    SubsetCard(some, Unmarked(st));
  }

  lemma StartsLinking(s: Sys, s1: Sys, s2: Sys, st1: State, r1: int, r2: int, f: nat, ip: nat, t: nat)
    requires Started0(s) && SysOk(s1) && SysOk(s2) && |Unmarked(s.st)| >= PLENTY
    requires OpenOk(s, s1, st1, ROOTINO, [NameOf(0)], NEWFILE, r1, f, ip, t) && CloseOk(s1, s2, 3, r2)
    ensures Linking(s2, t, 1)
  {
    Flags();
    hide Flag, SysOk, Seen, OpenOk, CloseOk, RootMap, Sysfile.CreateDone, NewEntry, RefOf, NameOf, Unmarked;
    var n := NameOf(0);
    SeenNames(s);
    assert DOTS.Keys == {DOT, DOTDOT} && n !in DOTS.Keys by { assert |NameOf(0)| == 3 by { ThreeBytes(0); } }
    assert CanCreate(Seen(s), |s.st.files|) by { FirstCreate(s); }
    OpenCreates(s, s1, st1, n, NEWFILE, r1, f, ip, t);
    CreateSeen(s, s1, n, ip, t, f);
    CreatedLive(s.st, st1, n, ip, t);
    NewIsOpen(s, s1, st1, n, NEWFILE, f, ip, t);
    CloseSeen(s1, s2, f, t, r2);
    SeenNames(s2);
    assert {ROOTINO} + {t} - {t} == {ROOTINO};
    KeepsUnmarked(s, s1, s2, n, f, ip, t, r2);
    forall j: nat | 1 <= j < NAMES ensures NameOf(j) !in RootMap(s2.st.files) {
      NamesDiffer(0, j);
      ThreeBytes(j);
    }
  }

  lemma KeepsUnmarked(s: Sys, s1: Sys, s2: Sys, n: Name, f: nat, ip: nat, t: nat, r: int)
    requires SysOk(s1) && Sysfile.CreateDone(s.st, s1.st, n, CREATED, ip, t) && s1.st.marked == s.st.marked
    requires |s1.ofile| == NOFILE && s1.ofile[3] == f < |s1.ftable| && f < |s1.held| && f < NFILE
    requires s1.ftable[f].ref == 1 && s1.held[f] == t && Linked(s1.st.files, t) && CloseOk(s1, s2, 3, r)
    ensures Unmarked(s2.st) == Unmarked(s.st)
  {
    hide SysOk, Sysfile.CreateDone, Inv, AfterPut, RefsMoved, BlocksOf, Tidy, TablesOk, LastPut, Linked, SameDisk;
    DoneKeepsBlocks(s.st, s1.st, n, ip, t);
    SysGives(s1);
    assert s2.st.data == s1.st.data;
    if LastPut(s1.st, t) { LastPutUnlinked(s1.st, t); }
  }

  lemma DoneKeepsBlocks(st: State, st': State, n: Name, ip: nat, t: nat)
    requires Sysfile.CreateDone(st, st', n, CREATED, ip, t)
    ensures st'.data.Keys == st.data.Keys
  {
    hide RootMap, NsOk, Holding, FirstEmptyTaken, Tidy, HasPlace;
  }

  lemma ThreeBytes(k: nat)
    ensures |NameOf(k)| == 3
  {
  }
}
