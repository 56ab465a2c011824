/** What the calls of the server come to for a client: in terms of the file behind a
    descriptor, its bytes and its offset, and of the inode a path names. */
module Calls {
  import opened Layout
  import opened BlockTree
  import opened Invariant
  import opened Directory
  import opened DirectoryOps
  import opened FileSystem
  import opened Path
  import opened References
  import opened Namei
  import opened Links
  import opened NameSpace
  import opened Sysfile
  import opened OpenFiles
  import opened Space
  import opened Server

  /** The inode a path names; 0 if none. */
  function AtPath(s: Sys, path: seq<Byte>): nat { Resolve(s.st.files, StartOf(path, s.c), Elements(path)) }

  /** The inode behind a descriptor; 0 if none. */
  function Inum(s: Sys, fd: int): nat { HeldBy(s, Behind(s, fd)) }

  /** The bytes of the file behind a descriptor, and where the next read or write begins. */
  function Bytes(s: Sys, fd: int): seq<Byte> { BytesOf(s.st.files, Inum(s, fd)) }
  function Offset(s: Sys, fd: int): nat { FileOffset(s, Behind(s, fd)) }

  // ---------- open ----------

  /** open gave descriptor `fd`. */
  ghost predicate Opens(s: Sys, s': Sys, path: seq<Byte>, omode: int, fd: int, f: nat, ip: nat, t: nat, st1: State)
  {
    SysOk(s) && fd >= 0 && OpenOk(s, s', st1, StartOf(path, s.c), Elements(path), omode, fd, f, ip, t)
  }

  /** The new entry: readable unless the mode has bit 0, writable if it has bit 0 or bit 1. */
  lemma OpenedEntry(s: Sys, s': Sys, path: seq<Byte>, omode: int, fd: int, f: nat, ip: nat, t: nat, st1: State)
    requires Opens(s, s', path, omode, fd, f, ip, t, st1)
    ensures AtOpen(s, st1, ip, t) && 3 <= fd < 16 && f < 100 && t < |st1.files| && st1.files[t].File?
    ensures |s.ofile| == 16 && s.ofile[fd] == 100 && forall k :: 3 <= k < fd ==> s.ofile[k] != 100
    ensures |s.ftable| == |s.held| == 100 && s.ftable[f].ref == 0
    ensures s'.ofile == s.ofile[fd := f] && s'.held == s.held[f := t] && |s'.ftable| == 100 && s'.c == s.c
    ensures forall g :: 0 <= g < 100 && g != f ==> s'.ftable[g] == s.ftable[g]
    ensures var e := s'.ftable[f]; (e.readable <==> omode % 2 == 0) && (e.writable <==> omode % 4 != 0) && e.ref == 1
    ensures s'.ftable[f].typ == if st1.files[t].typ == 3 then FdDevice else FdInode
    ensures st1.files[t].typ != 3 ==> s'.ftable[f].off == 0
    ensures s'.st == if omode / 512 % 2 == 1 && st1.files[t].typ == 2 then WithTrunc(st1, t) else st1
  {
    hide SysOk, Looked, AtOpen, OpenedOk, Elements, WithTrunc;
    LookedFile(s, st1, StartOf(path, s.c), Elements(path), Flag(omode, O_CREAT), ip, t);
    AtOpenTables(s, st1, ip, t);
    EntryAttached(s, s', st1, t, omode, fd, f);
  }

  lemma EntryAttached(s: Sys, s': Sys, st1: State, t: nat, omode: int, fd: int, f: nat)
    requires OpenedOk(s, s', st1, t, omode, fd, f) && fd >= 0 && |s.ftable| == |s.held| == 100 && |s.ofile| == 16
    ensures 3 <= fd < 16 && f < 100 && t < |st1.files| && st1.files[t].File?
    ensures s.ofile[fd] == 100 && (forall k :: 3 <= k < fd ==> s.ofile[k] != 100) && s.ftable[f].ref == 0
    ensures s'.ofile == s.ofile[fd := f] && s'.held == s.held[f := t] && |s'.ftable| == 100 && s'.c == s.c
    ensures forall g :: 0 <= g < 100 && g != f ==> s'.ftable[g] == s.ftable[g]
    ensures var e := s'.ftable[f]; (e.readable <==> omode % 2 == 0) && (e.writable <==> omode % 4 != 0) && e.ref == 1
    ensures s'.ftable[f].typ == if st1.files[t].typ == 3 then FdDevice else FdInode
    ensures st1.files[t].typ != 3 ==> s'.ftable[f].off == 0
    ensures s'.st == if omode / 512 % 2 == 1 && st1.files[t].typ == 2 then WithTrunc(st1, t) else st1
  {
    hide WithTrunc, NotOpened, NewEntry;
    EntryOfMode(s.ftable[f], omode, st1.files[t].typ, st1.files[t].major, st1.slots[t]);
  }

  lemma EntryOfMode(e0: OpenFile, omode: int, typ: Short, major: Short, ip: nat)
    ensures var e := NewEntry(e0, omode, typ, major, ip);
      && (e.readable <==> omode % 2 == 0) && (e.writable <==> omode % 4 != 0) && e.ref == 1
      && e.typ == (if typ == 3 then FdDevice else FdInode) && (typ != 3 ==> e.off == 0)
  {
  }

  /** The file found: what the path names, or a new and empty one under a path that named
      nothing; every other path names what it named, except that of a new file. */
  lemma OpenedFile(s: Sys, s': Sys, path: seq<Byte>, omode: int, fd: int, f: nat, ip: nat, t: nat, st1: State)
    requires Opens(s, s', path, omode, fd, f, ip, t, st1)
    ensures omode / 64 % 2 == 0 ==> AtPath(s, path) == t && SameDisk(s.st, st1)
    ensures t < |s.st.live| && t < |st1.live|
    ensures omode / 64 % 2 == 1 ==> AtPath(s, path) == 0 && t < |st1.files| && st1.files[t] == File(2, 0, 0, 1, [])
  {
    LookedFile(s, st1, StartOf(path, s.c), Elements(path), Flag(omode, O_CREAT), ip, t);
    AtOpenFacts(s, st1, ip, t);
    hide SysOk, AtOpen, Holding, PutOk, Elements, Inv, OpenedOk;
    if Flag(omode, O_CREAT) {
      var (start, els) := (StartOf(path, s.c), Elements(path));
      NewIsFile(s, st1, start, els, ip, t);
      NewWasNothing(s, st1, start, els, ip, t);
    }
  }

  lemma NewIsFile(s: Sys, st1: State, start: nat, els: seq<Name>, ip: nat, t: nat)
    requires CreateOk(s.st, st1, start, els, File(T_FILE, 0, 0, 1, []), ip, t) && ip != NINODE
    requires SysOk(s)
    ensures t < |st1.files| && st1.files[t] == File(2, 0, 0, 1, []) && t < |s.st.live|
  {
    RootOfSys(s);
    LengthsAgree(s.st);
    hide SysOk, Holding, Inv, RootMap, NsOk, Extended, Tidy, ResolveParent, HasPlace;
  }

  lemma NewWasNothing(s: Sys, st1: State, start: nat, els: seq<Name>, ip: nat, t: nat)
    requires CreateOk(s.st, st1, start, els, File(T_FILE, 0, 0, 1, []), ip, t) && ip != NINODE
    requires SysOk(s) && (start == s.c || start == ROOTINO)
    ensures Resolve(s.st.files, start, els) == 0
  {
    RootOfSys(s);
    hide Holding, Inv, RootMap, TablesOk, Extended, Tidy, HasPlace, CreateDone, DirOk, ResolveParent;
    NameiIsLookupInParent(s.st.files, start, els);
    var p := ResolveParent(s.st.files, start, els);
    assert IsDirFile(s.st.files, p) <==> p == ROOTINO;
  }

  /** What is behind the new descriptor: the file with the bytes it had, or none if it is new
      or was truncated; and behind all other descriptors is what was there. */
  lemma OpenGives(s: Sys, s': Sys, path: seq<Byte>, omode: int, fd: int, f: nat, ip: nat, t: nat, st1: State)
    requires Opens(s, s', path, omode, fd, f, ip, t, st1)
    ensures t < |st1.files| && st1.files[t].File? && Behind(s', fd) == f && Inum(s', fd) == t
    ensures st1.files[t].typ != 3 ==> Offset(s', fd) == 0
    ensures Bytes(s', fd) ==
      if omode / 64 % 2 == 1 || (omode / 512 % 2 == 1 && st1.files[t].typ == 2) then [] else BytesOf(s.st.files, t)
    ensures forall k: int :: k != fd ==> Behind(s', k) == Behind(s, k)
    ensures forall k: int :: k != fd ==> Inum(s', k) == Inum(s, k) && Offset(s', k) == Offset(s, k)
  {
    hide Opens, AtOpen, WithTrunc, Inv, Cached, SysOk, Elements, StartOf, Resolve;
    OpenedEntry(s, s', path, omode, fd, f, ip, t, st1);
    OpenedFile(s, s', path, omode, fd, f, ip, t, st1);
    TruncatedBytes(s, st1, ip, t);
    forall k: int | k != fd && Behind(s, k) != 100 ensures Behind(s, k) != f {
      OpensOk(s, s', path, omode, fd, f, ip, t, st1, k);
    }
  }

  lemma TruncatedBytes(s: Sys, st1: State, ip: nat, t: nat)
    requires AtOpen(s, st1, ip, t)
    ensures t < |st1.files| && st1.files[t].File?
    ensures WithTrunc(st1, t).files == st1.files[t := st1.files[t].(bytes := [])]
  {
    AtOpenFacts(s, st1, ip, t);
    assert Cached(st1.itable, st1.slots, t) by { hide SysOk, Holding, Linked; }
    TruncKeepsRest(st1, t);
    hide *;
  }

  lemma OpensOk(s: Sys, s': Sys, path: seq<Byte>, omode: int, fd: int, f: nat, ip: nat, t: nat, st1: State, k: int)
    requires Opens(s, s', path, omode, fd, f, ip, t, st1) && Behind(s, k) != 100
    ensures Behind(s, k) < |s.ftable| && s.ftable[Behind(s, k)].ref > 0
  {
    hide SysOk, OpenOk;
    DescriptorFacts(s, k);
  }

  /** When open gives a descriptor: the path names something that is no device without a driver
      number, or with O_CREAT it names nothing and can be made; and one of the descriptors from 3
      to 15 is free. */
  lemma OpensIff(s: Sys, s': Sys, path: seq<Byte>, omode: int, r: int, f: nat, ip: nat, t: nat, st1: State)
    requires SysOk(s) && OpenOk(s, s', st1, StartOf(path, s.c), Elements(path), omode, r, f, ip, t)
    ensures s.c == 1 && StartOf(path, s.c) == 1
    ensures r < 0 ==> r == -1
    ensures r >= 0 <==>
      && (exists k: int :: 3 <= k < 16 && Behind(s, k) == 100)
      && if omode / 64 % 2 == 0 then AtPath(s, path) != 0 && !NoDriver(s.st.files, AtPath(s, path)) else
           AtPath(s, path) == 0 && ResolveParent(s.st.files, 1, Elements(path)) != 0
           && (exists j :: 1 <= j < |s.st.files| && s.st.files[j] == Free) && HasPlace(s.st, 1)
  {
    RootOfSys(s);
    hide SysOk, AtOpen, Elements, Inv, CreateOk, HasPlace, Resolve, ResolveParent, Looked, OpenedOk;
    FoundIff(s, st1, path, omode, ip, t);
    if ip != NINODE {
      LookedFile(s, st1, StartOf(path, s.c), Elements(path), Flag(omode, O_CREAT), ip, t);
      OpenedIff(s, s', st1, ip, t, omode, r, f);
    }
  }

  lemma OpenedIff(s: Sys, s': Sys, st1: State, ip: nat, t: nat, omode: int, r: int, f: nat)
    requires AtOpen(s, st1, ip, t) && OpenedOk(s, s', st1, t, omode, r, f)
    ensures r >= -1 && (r >= 0 <==> !NoDriver(st1.files, t) && exists k: int :: 3 <= k < 16 && Behind(s, k) == 100)
  {
    assert SysOk(s) by { hide SysOk; }
    DescriptorFacts(s, 0);
    hide AtOpen, Behind, LowestFree, NotOpened, NewEntry, Opened;
    if LowestFree(s.ofile, r) { LowestIff(s, r); }
  }

  lemma LowestIff(s: Sys, r: int)
    requires LowestFree(s.ofile, r) && forall k {:trigger s.ofile[k]} :: 0 <= k < 16 ==> s.ofile[k] <= 100
    ensures r >= -1 && (r >= 0 <==> exists k: int :: 3 <= k < 16 && Behind(s, k) == 100)
  {
    assert r >= 0 ==> Behind(s, r) == 100;
  }

  /** A device whose number is none of 0 to 9. */
  predicate NoDriver(files: seq<File>, i: nat)
  {
    i < |files| && files[i].File? && files[i].typ == 3 && !(0 <= files[i].major < 10)
  }

  lemma FoundIff(s: Sys, st1: State, path: seq<Byte>, omode: int, ip: nat, t: nat)
    requires SysOk(s) && s.c == 1
    requires Looked(s.st, st1, StartOf(path, s.c), Elements(path), Flag(omode, O_CREAT), ip, t)
    ensures ip != 50 <==> if omode / 64 % 2 == 0 then AtPath(s, path) != 0 else
      AtPath(s, path) == 0 && ResolveParent(s.st.files, 1, Elements(path)) != 0
      && (exists j :: 1 <= j < |s.st.files| && s.st.files[j] == Free) && HasPlace(s.st, 1)
    ensures ip != 50 && omode / 64 % 2 == 0 ==> t == AtPath(s, path) && st1.files == s.st.files
    ensures ip != 50 && omode / 64 % 2 == 1 ==> t < |st1.files| && st1.files[t] == File(2, 0, 0, 1, [])
  {
    hide Inv, NsOk, TablesOk, Holding, CreateOk, HasPlace, Resolve, ResolveParent, Elements;
    if Flag(omode, O_CREAT) {
      CreateGives(s.st, st1, Elements(path), File(T_FILE, 0, 0, 1, []), ip, t, []);
    }
  }

  /** The first `n` bytes, or all there are. */
  function FirstOf(bytes: seq<Byte>, n: nat): seq<Byte> { if n < |bytes| then bytes[..n] else bytes }

  /** Reading through a descriptor open has just given: refused precisely when the mode had bit
      0, whatever the other bits; else the first bytes of the file, and none of a new file or
      one that open truncated. */
  lemma OpenThenRead(s: Sys, s1: Sys, path: seq<Byte>, omode: int, fd: int, f: nat, ip: nat, t: nat, st1: State,
                     s2: Sys, n: int, r: int, dst: seq<Byte>)
    requires Opens(s, s1, path, omode, fd, f, ip, t, st1) && FileReadOk(s1, s2, Behind(s1, fd), n, r, dst)
    ensures r == -9 <==> omode % 2 == 1
    ensures r == -9 ==> dst == [] && s2 == s1
    ensures t < |st1.files| && t < |s.st.live| && st1.files[t].File?
    ensures omode % 2 == 0 && st1.files[t].typ == 3 ==> r == -22 && dst == [] && s2 == s1
    ensures omode % 2 == 0 && st1.files[t].typ != 3 ==>
      var emptied := omode / 64 % 2 == 1 || (omode / 512 % 2 == 1 && st1.files[t].typ == 2);
      var all := if emptied then [] else FirstOf(BytesOf(s.st.files, AtPath(s, path)), n % 4294967296);
      && r == |dst| == Offset(s2, fd) && dst <= all
      && (RangeMapped(s.st.data, s.st.live[t], 0, |all|) ==> dst == all)
  {
    hide Opens, AtOpen, WithTrunc, Inv, Cached, SysOk, Elements, StartOf, Resolve, ReadOk, RangeMapped;
    OpenedEntry(s, s1, path, omode, fd, f, ip, t, st1);
    OpenedFile(s, s1, path, omode, fd, f, ip, t, st1);
    OpenGives(s, s1, path, omode, fd, f, ip, t, st1);
    if omode % 2 == 0 && st1.files[t].typ != 3 {
      ReadGives(s1.st, s2.st, t, 0, ToUint(n), dst);
    }
  }

  // ---------- read and write ----------

  /** What filewrite does, in numbers: the bytes that were written where the offset was and all
      others as before, zeros in a gap; the offset after them; and a result that counts them if
      all are written and else the complete chunks of 3072. */
  lemma WroteGives(s: Sys, s': Sys, f: nat, src: seq<Byte>, r: int, moved: nat)
    requires WroteOk(s, s', f, src, r, moved)
    ensures moved <= |src| && r == if moved == |src| then |src| else moved - moved % 3072
    ensures FileOffset(s', f) == FileOffset(s, f) + moved
    ensures |s'.st.files| == |s.st.files| && forall j :: 0 <= j < |s.st.files| && j != HeldBy(s, f) ==>
      s'.st.files[j] == s.st.files[j]
    ensures var (off, before, after) :=
        (FileOffset(s, f), BytesOf(s.st.files, HeldBy(s, f)), BytesOf(s'.st.files, HeldBy(s, f)));
      && |before| <= |after|
      && (moved > 0 || off <= |before| ==> |after| == if |before| < off + moved then off + moved else |before|)
      && forall p :: 0 <= p < |after| ==>
           after[p] == if off <= p < off + moved then src[p - off] else if p < |before| then before[p] else 0
  {
    hide Filled, Written, FullDisk, AtHole, Splice;
    if moved <= |src| { SpliceGives(BytesOf(s.st.files, HeldBy(s, f)), FileOffset(s, f), src[..moved]); }
  }

  lemma SpliceGives(before: seq<Byte>, off: nat, src: seq<Byte>)
    ensures var after := Splice(before, off, src);
      && |after| == (if |before| < off + |src| then off + |src| else |before|)
      && forall p :: 0 <= p < |after| ==>
           after[p] == if off <= p < off + |src| then src[p - off] else if p < |before| then before[p] else 0
  {
  }

  /** Writing through a descriptor open has just given: refused precisely when the mode had
      neither bit 0 nor bit 1; else the file begins with what was written. */
  lemma OpenThenWrite(s: Sys, s1: Sys, path: seq<Byte>, omode: int, fd: int, f: nat, ip: nat, t: nat, st1: State,
                      s2: Sys, src: seq<Byte>, r: int, moved: nat)
    requires Opens(s, s1, path, omode, fd, f, ip, t, st1)
    requires FileWriteOk(s1, s2, Behind(s1, fd), src, |src|, r, moved)
    ensures r == -9 <==> omode % 4 == 0
    ensures r == -9 ==> s2 == s1
    ensures t < |st1.files| && st1.files[t].File?
    ensures omode % 4 != 0 && st1.files[t].typ == 3 ==> r == -22 && s2 == s1
    ensures omode % 4 != 0 && st1.files[t].typ != 3 ==>
      var emptied := omode / 64 % 2 == 1 || (omode / 512 % 2 == 1 && st1.files[t].typ == 2);
      var before := if emptied then [] else BytesOf(s.st.files, AtPath(s, path));
      && moved <= |src| && r == (if moved == |src| then |src| else moved - moved % 3072)
      && Offset(s2, fd) == moved
      && Bytes(s2, fd) == src[..moved] + if moved < |before| then before[moved..] else []
  {
    hide Opens, AtOpen, WithTrunc, Inv, Cached, SysOk, Elements, StartOf, Resolve, WroteOk;
    OpenedEntry(s, s1, path, omode, fd, f, ip, t, st1);
    OpenedFile(s, s1, path, omode, fd, f, ip, t, st1);
    OpenGives(s, s1, path, omode, fd, f, ip, t, st1);
    if omode % 4 != 0 && st1.files[t].typ != 3 {
      assert src[..|src|] == src;
      WroteGives(s1, s2, f, src, r, moved);
      WroteTables(s1, s2, f, src, r, moved);
      var (before, after) := (Bytes(s1, fd), Bytes(s2, fd));
      assert after == src[..moved] + if moved < |before| then before[moved..] else [];
    }
  }

  lemma WroteTables(s: Sys, s': Sys, f: nat, src: seq<Byte>, r: int, moved: nat)
    requires WroteOk(s, s', f, src, r, moved)
    ensures s'.held == s.held && s'.ofile == s.ofile && f < |s.held| && f < |s.ftable| == |s'.ftable|
    ensures s.ftable[f].off + moved < 4294967296
    ensures s'.ftable[f] == s.ftable[f].(off := s.ftable[f].off + moved)
  {
    hide Filled, Written, FullDisk, AtHole, Splice;
  }

  /** What a read is to give: nothing past the end of the file or when the end of the range does
      not fit 32 bits, else `n` bytes from `off` or all there are. */
  function Asked(bytes: seq<Byte>, off: nat, n: int): seq<Byte>
  {
    if off > |bytes| || off + n % 4294967296 >= 4294967296 then [] else FirstOf(bytes[off..], n % 4294967296)
  }

  /** What fileread does: the bytes at the offset, which moves behind them; fewer only where a
      block is missing. */
  lemma ReadThrough(s: Sys, s': Sys, f: nat, n: int, r: int, dst: seq<Byte>)
    requires FileReadOk(s, s', f, n, r, dst) && s.ftable[f].readable && s.ftable[f].typ == FdInode
    ensures var (off, bytes) := (s.ftable[f].off, BytesOf(s.st.files, s.held[f]));
      && r == |dst| && dst <= Asked(bytes, off, n) && (off + |dst| < 4294967296 ==> FileOffset(s', f) == off + |dst|)
      && s.held[f] < |s.st.live|
      && (RangeMapped(s.st.data, s.st.live[s.held[f]], off, |Asked(bytes, off, n)|) ==> dst == Asked(bytes, off, n))
    ensures s' == Moved(s.(st := s'.st), f, ToUint(s.ftable[f].off + |dst|)) && s'.st.files == s.st.files
  {
    hide ReadOk, RangeMapped;
    ReadGives(s.st, s'.st, s.held[f], s.ftable[f].off, ToUint(n), dst);
    ReadKeepsFiles(s.st, s'.st, s.held[f], s.ftable[f].off, ToUint(n), dst);
  }

  /** After a complete write the bytes are there and so are their blocks. */
  lemma WrittenIsThere(s: Sys, s': Sys, f: nat, src: seq<Byte>, moved: nat)
    requires WroteOk(s, s', f, src, |src|, moved) && src != []
    ensures moved == |src| && s'.held == s.held && |s'.ftable| == |s.ftable|
    ensures var (t, off, bytes) := (s.held[f], s.ftable[f].off, BytesOf(s'.st.files, s.held[f]));
      && s'.ftable[f] == s.ftable[f].(off := off + |src|) && t < |s'.st.live|
      && off + |src| <= |bytes| && bytes[off..off + |src|] == src && off + |src| < 4294967296
      && RangeMapped(s'.st.data, s'.st.live[t], off, |src|)
  {
    hide WroteOk, RangeMapped;
    WroteGives(s, s', f, src, |src|, moved);
    WrittenBlocks(s, s', f, src, |src|, moved);
    WroteTables(s, s', f, src, |src|, moved);
    var (off, bytes) := (s.ftable[f].off, BytesOf(s'.st.files, s.held[f]));
    assert bytes[off..off + |src|] == src;
  }

  lemma WrittenBlocks(s: Sys, s': Sys, f: nat, src: seq<Byte>, r: int, moved: nat)
    requires WroteOk(s, s', f, src, r, moved)
    ensures s.held[f] < |s'.st.live| && RangeMapped(s'.st.data, s'.st.live[s.held[f]], s.ftable[f].off, moved)
  {
    hide Written, FullDisk, AtHole, Splice, Hung, SlotsIn, RangeMapped, Refused;
  }

  /** A complete write, back to where it began, and a read that asks for as much gives what was
      written; if the write ended the file, so does a read that asks for more, and the next one
      gives nothing. */
  lemma WriteSeekRead(s: Sys, s1: Sys, s2: Sys, s3: Sys, s4: Sys, f: nat, src: seq<Byte>, moved: nat, at: int,
                      n: int, r: int, dst: seq<Byte>, m: int, r': int, rest: seq<Byte>)
    requires FileWriteOk(s, s1, f, src, |src|, |src|, moved) && src != []
    requires s.ftable[f].readable && s.ftable[f].typ == FdInode
    requires SeekOk(s1, s2, f, -|src|, 1, at)
    requires FileReadOk(s2, s3, f, n, r, dst) && FileReadOk(s3, s4, f, m, r', rest)
    requires f < |s.held| && |src| <= n && s.ftable[f].off + n < 4294967296
    ensures var ended := |BytesOf(s.st.files, s.held[f])| <= s.ftable[f].off + |src|;
      && (n == |src| || ended ==> dst == src)
      && (ended ==> rest == [])
  {
    hide WroteOk, FileReadOk, RangeMapped, Asked, SeekOk;
    assert src[..|src|] == src;
    var (off, before, after) := (s.ftable[f].off, BytesOf(s.st.files, s.held[f]), BytesOf(s1.st.files, s.held[f]));
    WrittenIsThere(s, s1, f, src, moved);
    WroteGives(s, s1, f, src, |src|, moved);
    assert s2 == Moved(s1, f, off) by { SeekBack(s1, s2, f, off, |src|, at); }
    ReadThrough(s2, s3, f, n, r, dst);
    AskedBack(after, off, src, n);
    if |before| <= off + |src| { AskedAtEnd(after, m); }
    ReadThrough(s3, s4, f, m, r', rest);
  }

  lemma AskedBack(bytes: seq<Byte>, off: Uint, src: seq<Byte>, n: int)
    requires off + |src| <= |bytes| && bytes[off..off + |src|] == src && |src| <= n && off + n < 4294967296
    ensures n == |src| || off + |src| == |bytes| ==> Asked(bytes, off, n) == src
  {
    if off + |src| == |bytes| { assert bytes[off..] == src; }
    if n == |src| { assert bytes[off..][..n] == src; }
  }

  lemma AskedAtEnd(bytes: seq<Byte>, n: int)
    ensures Asked(bytes, |bytes|, n) == []
  {
    assert bytes[|bytes|..] == [];
  }

  lemma SeekBack(s: Sys, s': Sys, f: nat, off: Uint, n: int, at: int)
    requires f < |s.ftable| && f < |s.held| && s.ftable[f].typ == FdInode && s.ftable[f].off == off + n
    requires s.held[f] < |s.st.files| && s.st.files[s.held[f]].File? && SeekOk(s, s', f, -n, 1, at)
    ensures s' == Moved(s, f, off)
  {
  }

  // ---------- seek, pread and pwrite ----------

  /** An open file that is no device. */
  ghost predicate OpenRegular(s: Sys, f: nat)
  {
    f < |s.ftable| && f < |s.held| && s.ftable[f].typ == FdInode && s.held[f] < |s.st.files|
    && s.st.files[s.held[f]].File?
  }

  /** Where a seek goes: to `off` from the start, from where it is, or from the end of the file,
      in 32 bits; nothing but the offset of that open file changes. */
  lemma SeekGives(s: Sys, s': Sys, f: nat, off: int, whence: int, r: int)
    requires SeekOk(s, s', f, off, whence, r) && OpenRegular(s, f)
    ensures whence < 0 || whence > 2 ==> r == -1 && s' == s
    ensures 0 <= whence <= 2 ==>
      var from := if whence == 0 then 0 else if whence == 1 then FileOffset(s, f) else |BytesOf(s.st.files, s.held[f])|;
      && FileOffset(s', f) == (from + off) % 4294967296 && s' == Moved(s, f, FileOffset(s', f))
      && (0 <= from + off < 2147483648 ==> r == from + off == FileOffset(s', f))
  {
  }

  /** Two seeks from where it is are one by the sum, and a seek by 0 tells where it is. */
  lemma SeeksAddUp(s: Sys, s1: Sys, s2: Sys, f: nat, a: int, ra: int, b: int, rb: int)
    requires SeekOk(s, s1, f, a, 1, ra) && SeekOk(s1, s2, f, b, 1, rb) && OpenRegular(s, f)
    ensures SeekOk(s, s2, f, a + b, 1, rb)
    ensures b == 0 ==> s2 == s1 && rb == ra && (FileOffset(s1, f) < 2147483648 ==> rb == FileOffset(s1, f))
  {
    SumOfRemainders(s.ftable[f].off + a, b);
    assert s1 == Moved(s, f, ToUint(s.ftable[f].off + a)) && s2 == Moved(s1, f, ToUint(s1.ftable[f].off + b));
  }

  lemma SumOfRemainders(x: int, y: int)
    ensures ToUint(ToUint(x) + y) == ToUint(x + y)
  {
    var q := x / 4294967296;
    assert x == q * 4294967296 + x % 4294967296;
    RemainderOfShift(x % 4294967296 + y, q);
  }

  lemma RemainderOfShift(x: int, q: int)
    ensures (x + q * 4294967296) % 4294967296 == x % 4294967296
  {
    var d := x / 4294967296;
    assert x + q * 4294967296 == (d + q) * 4294967296 + x % 4294967296;
  }

  /** pread: the bytes at `off`, and the offset behind them.  A negative offset is refused, but
      the offset has moved there by then. */
  lemma PReadGives(s: Sys, s': Sys, fd: int, n: int, off: int, r: int, dst: seq<Byte>)
    requires PReadOk(s, s', fd, n, off, r, dst)
    ensures Behind(s, fd) == 100 ==> r == -9 && s' == s
    ensures OpenRegular(s, Behind(s, fd)) && Behind(s, fd) != 100 ==>
      if off % 4294967296 >= 2147483648 then
        r == -22 && Offset(s', fd) == off % 4294967296 && s'.st == s.st
      else if !s.ftable[Behind(s, fd)].readable then
        r == -9 && Offset(s', fd) == off % 4294967296 && s'.st == s.st
      else
        var (o, bytes, t) := (off % 4294967296, Bytes(s, fd), Inum(s, fd));
        && r == |dst| && dst <= Asked(bytes, o, n) && Offset(s', fd) == o + |dst| && Bytes(s', fd) == bytes
        && t < |s.st.live|
        && (RangeMapped(s.st.data, s.st.live[t], o, |Asked(bytes, o, n)|) ==> dst == Asked(bytes, o, n))
  {
    hide FileReadOk, RangeMapped, Asked;
    var (f, s1) := (Behind(s, fd), Seeked(s, Behind(s, fd), off, 0));
    if f != 100 && OpenRegular(s, f) {
      assert s1 == Moved(s, f, ToUint(off));
      if ToUint(off) < 2147483648 {
        if s.ftable[f].readable {
          ReadThrough(s1, s', f, n, r, dst);
          AskedEnds(Bytes(s, fd), ToUint(off), n);
        } else {
          ReadRefused(s1, s', f, n, r, dst);
        }
      }
    }
  }

  lemma AskedEnds(bytes: seq<Byte>, off: Uint, n: int)
    ensures |Asked(bytes, off, n)| == 0 || off + |Asked(bytes, off, n)| < 4294967296
  {
  }

  lemma ReadRefused(s: Sys, s': Sys, f: nat, n: int, r: int, dst: seq<Byte>)
    requires FileReadOk(s, s', f, n, r, dst) && !s.ftable[f].readable
    ensures r == -9 && dst == [] && s' == s
  {
  }

  /** A complete pwrite is read back by pread. */
  lemma PWriteThenPRead(s: Sys, s1: Sys, s2: Sys, fd: int, src: seq<Byte>, off: int, moved: nat,
                        n: int, r: int, dst: seq<Byte>)
    requires PWriteOk(s, s1, fd, src, |src|, off, |src|, moved) && src != [] && 0 <= off
    requires OpenRegular(s, Behind(s, fd)) && s.ftable[Behind(s, fd)].readable
    requires PReadOk(s1, s2, fd, n, off, r, dst) && |src| <= n && off + n < 4294967296
    ensures n == |src| || |Bytes(s, fd)| <= off + |src| ==> dst == src
  {
    hide WroteOk, FileReadOk, RangeMapped, Asked;
    var (f, s0) := (Behind(s, fd), Seeked(s, Behind(s, fd), off, 0));
    assert s0 == Moved(s, f, off) && src[..|src|] == src;
    WrittenIsThere(s0, s1, f, src, moved);
    WroteGives(s0, s1, f, src, |src|, moved);
    WroteTables(s0, s1, f, src, |src|, moved);
    PReadGives(s1, s2, fd, n, off, r, dst);
    AskedBack(Bytes(s1, fd), off, src, n);
  }

  // ---------- dup and close ----------

  /** dup gives the lowest free descriptor from 3 on, if there is one and `fd` is open, and
      behind it is the very open file that is behind `fd`, so the two share their offset; all
      other descriptors and all files are as before. */
  lemma DupGives(s: Sys, s': Sys, fd: int, r: int)
    requires SysOk(s) && DupOk(s, s', fd, r)
    ensures r == -1 <==> Behind(s, fd) == 100 || forall k: int :: 3 <= k < 16 ==> Behind(s, k) != 100
    ensures r == -1 ==> s' == s
    ensures r != -1 ==>
      && 3 <= r < 16 && Behind(s, r) == 100 && (forall k: int :: 3 <= k < r ==> Behind(s, k) != 100)
      && Behind(s', r) == Behind(s, fd) && (forall k: int :: k != r ==> Behind(s', k) == Behind(s, k))
      && s'.held == s.held && s'.st == s.st && forall f: nat :: FileOffset(s', f) == FileOffset(s, f)
  {
    hide Inv, NsOk, TablesOk;
    DescriptorFacts(s, fd);
    assert forall k: int :: 0 <= k < 16 ==> (Behind(s, k) != 100 <==> s.ofile[k] != 100);
  }

  /** close undoes dup: the server is precisely as it was. */
  lemma DupThenClose(s: Sys, s1: Sys, s2: Sys, fd: int, r: int, q: int)
    requires SysOk(s) && DupOk(s, s1, fd, r) && r != -1 && CloseOk(s1, s2, r, q)
    ensures q == 0 && s2 == s
  {
    hide Inv, NsOk, TablesOk, PutOk, AfterPut;
    DescriptorFacts(s, fd);
    var f := Behind(s, fd);
    assert s1.ftable[f].ref == s.ftable[f].ref + 1 > 1;
    assert s.ofile[r := f][r := 100] == s.ofile;
    assert s1.ftable[f := s1.ftable[f].(ref := s.ftable[f].ref)] == s.ftable;
  }

  /** Nothing is behind a closed descriptor, and behind all others is what was there.  Its file
      goes away precisely when it has no link, no other descriptor leads to it, and no failed
      create has pinned it; no other file changes. */
  lemma CloseGives(s: Sys, s': Sys, fd: int, r: int)
    requires SysOk(s) && CloseOk(s, s', fd, r)
    ensures r == -1 <==> Behind(s, fd) == 100
    ensures r == -1 ==> s' == s
    ensures r != -1 ==>
      && r == 0 && Behind(s', fd) == 100 && (forall k: int :: k != fd ==> Behind(s', k) == Behind(s, k))
      && forall k: int :: k != fd && Behind(s, k) != 100 ==> Inum(s', k) == Inum(s, k) && Offset(s', k) == Offset(s, k)
    ensures r != -1 ==>
      var t := Inum(s, fd);
      && t < |s.st.files| && s.st.files[t].File?
      && s'.st.files == if s.st.files[t].nlink == 0 && s.loose[t] == 0 && (forall k: int :: k != fd ==> Inum(s, k) != t)
                        then s.st.files[t := Free] else s.st.files
  {
    hide Inv, NsOk, TablesOk, PutOk, AfterPut;
    DescriptorFacts(s, fd);
    var f := Behind(s, fd);
    if f != 100 {
      EntryFacts(s, f);
      forall k: int | k != fd && Behind(s, k) == f ensures s.ftable[f].ref > 1 { TwoDescriptors(s, fd, k); }
      LastDescriptor(s, fd);
      if s.ftable[f].ref == 1 { PutFiles(s.st, s'.st, s.held[f]); }
    }
  }

  lemma PutFiles(st: State, st': State, i: nat)
    requires PutOk(st, st', i)
    ensures st'.files == if LastPut(st, i) then st.files[i := Free] else st.files
  {
    hide Inv, RefsMoved, BlocksOf, Tidy;
  }

  lemma TwoDescriptors(s: Sys, j: int, k: int)
    requires SysOk(s) && j != k && Behind(s, j) == Behind(s, k) != 100
    ensures Behind(s, j) < |s.ftable| && s.ftable[Behind(s, j)].ref > 1
  {
    hide Inv, NsOk, Accounted, IsDirFile, Cached;
    var f := Behind(s, j);
    assert EntryOk(s.st, s.ftable[f], s.held[f], multiset(s.ofile)[f]);
    UpdateCounts(s.ofile, j, 100);
    UpdateCounts(s.ofile[j := 100], k, 100);
  }

  lemma LastDescriptor(s: Sys, fd: int)
    requires SysOk(s) && Behind(s, fd) != 100
    ensures var (f, t) := (Behind(s, fd), Inum(s, fd));
      && f < |s.ftable| && t < |s.st.files| && s.st.files[t].File?
      && (s.ftable[f].ref == 1 && LastPut(s.st, t) <==>
          s.st.files[t].nlink == 0 && s.loose[t] == 0 && forall k: int :: k != fd ==> Inum(s, k) != t)
  {
    var (f, t) := (Behind(s, fd), Inum(s, fd));
    hide Inv, NsOk, TablesOk, LastPut;
    DescriptorFacts(s, fd);
    EntryFacts(s, f);
    RootOfSys(s);
    CountOfRefs(s, t);
    FreesIff(s.st, t);
    CountOfHeld(s.held, f);
    if s.ftable[f].ref > 1 {
      var k := OtherDescriptor(s, fd);
      assert Inum(s, k) == t;
    }
    if multiset(s.held)[t] > 1 {
      var g := OtherHolder(s.held, f);
      var k := DescriptorOf(s, g);
      assert Inum(s, k) == t;
    }
    if s.ftable[f].ref == 1 && multiset(s.held)[t] == 1 {
      forall k: int | k != fd ensures Inum(s, k) != t {
        if Behind(s, k) == f { TwoDescriptors(s, fd, k); } else { SoleHolder(s.held, f, Behind(s, k)); }
      }
    }
  }

  lemma FreesIff(st: State, t: nat)
    requires Inv(st, 0) && Cached(st.itable, st.slots, t) && t < |st.files| && st.files[t].File?
    ensures LastPut(st, t) <==> RefOf(st.itable, st.slots, t) == 1 && st.files[t].nlink == 0
  {
    HeldFacts(st, t);
    TypeOfFile(st, t);
    hide Inv;
  }

  lemma CountOfRefs(s: Sys, t: nat)
    requires SysOk(s) && 0 < t < |s.st.files| && s.st.files[t].File?
    ensures RefOf(s.st.itable, s.st.slots, t) == multiset(s.held)[t] + s.loose[t] + if t == s.c then 1 else 0
    ensures t == s.c ==> s.st.files[t].nlink != 0
  {
    RootOfSys(s);
    hide Inv, RootMap, EntryOk, IsDirFile, DirOk;
  }

  lemma CountOfHeld(held: seq<nat>, f: nat)
    requires f < |held|
    ensures multiset(held)[held[f]] >= 1
  {
    assert held[f] in multiset(held);
  }

  lemma OtherHolder(held: seq<nat>, f: nat) returns (g: nat)
    requires f < |held| && multiset(held)[held[f]] > 1 && held[f] != 0
    ensures g < |held| && g != f && held[g] == held[f]
  {
    UpdateCounts(held, f, 0);
    assert held[f] in multiset(held[f := 0]);
    g :| g < |held| && held[f := 0][g] == held[f];
  }

  lemma SoleHolder(held: seq<nat>, f: nat, g: nat)
    requires f < |held| && multiset(held)[held[f]] == 1 && held[f] != 0 && g != f
    ensures g < |held| ==> held[g] != held[f]
  {
    if g < |held| && held[g] == held[f] {
      UpdateCounts(held, f, 0);
      UpdateCounts(held[f := 0], g, 0);
    }
  }

  lemma OtherDescriptor(s: Sys, fd: int) returns (k: int)
    requires SysOk(s) && Behind(s, fd) < 100 && Behind(s, fd) < |s.ftable| && s.ftable[Behind(s, fd)].ref > 1
    ensures k != fd && Behind(s, k) == Behind(s, fd)
  {
    hide Inv, NsOk, Accounted, IsDirFile, Cached;
    var f := Behind(s, fd);
    assert EntryOk(s.st, s.ftable[f], s.held[f], multiset(s.ofile)[f]);
    UpdateCounts(s.ofile, fd, 100);
    assert f in multiset(s.ofile[fd := 100]);
    k :| 0 <= k < |s.ofile| && s.ofile[fd := 100][k] == f;
  }

  lemma DescriptorOf(s: Sys, g: nat) returns (k: int)
    requires SysOk(s) && g < |s.held| && s.held[g] != 0
    ensures Behind(s, k) == g
  {
    hide Inv, NsOk, Accounted, IsDirFile, Cached;
    assert EntryOk(s.st, s.ftable[g], s.held[g], multiset(s.ofile)[g]);
    assert g in multiset(s.ofile);
    k :| 0 <= k < |s.ofile| && s.ofile[k] == g;
  }
}
