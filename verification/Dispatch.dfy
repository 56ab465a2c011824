/** The dispatch loop of the server (xv6fs/src/main.c): whatever clients ask for, one call
    after the other, the whole invariant holds. */
module Dispatch {
  import opened Layout
  import opened BlockTree
  import opened BlockStore
  import opened Directory
  import opened Invariant
  import opened FileSystem
  import opened Path
  import opened References
  import opened Namei
  import opened Links
  import Sysfile
  import opened OpenFiles
  import opened Server
  import opened DirectoryOps
  import opened Space

  /** The calls of the switch, with their arguments; Unknown is its default.  Those left
      out are fstat, getcwd and lstat. */
  datatype Call =
    | OpenCall(path: seq<Byte>, omode: int) | CloseCall(fd: int)
    | ReadCall(fd: int, n: int) | WriteCall(fd: int, src: seq<Byte>, n: int)
    | PReadCall(fd: int, n: int, off: int) | PWriteCall(fd: int, src: seq<Byte>, n: int, off: int)
    | SeekCall(fd: int, off: int, whence: int) | UnlinkCall(path: seq<Byte>) | Unknown

  /** Arguments as they come out of argstr and argaddr. */
  ghost predicate WellFormed(call: Call)
  {
    match call
    case OpenCall(path, omode) => NoNul(path)
    case WriteCall(fd, src, n) => n <= |src|
    case PWriteCall(fd, src, n, off) => n <= |src|
    case UnlinkCall(path) => NoNul(path)
    case _ => true
  }

  function FileSize(s: Sys, f: nat): nat
  {
    if f < |s.held| && s.held[f] < |s.st.files| && s.st.files[s.held[f]].File? then |s.st.files[s.held[f]].bytes| else 0
  }

  /** What clients must not do: write to a directory, or seek from the end past it. */
  ghost predicate Polite(s: Sys, call: Call)
  {
    match call
    case WriteCall(fd, src, n) => NoDirectoryWritten(s, fd)
    case PWriteCall(fd, src, n, off) => NoDirectoryWritten(s, fd)
    case SeekCall(fd, off, whence) =>
      whence == SEEK_END && Behind(s, fd) != NFILE ==>
        ToUint(FileSize(s, Behind(s, fd)) + off) <= FileSize(s, Behind(s, fd))
    case _ => true
  }

  /** The call finds a table entry for every inode it goes through. */
  predicate HasRoom(s: Sys, call: Call)
  {
    match call
    case OpenCall(path, omode) =>
      OpenRoom(s.st.slots.Keys, s.st.files, StartOf(path, s.c), Elements(path), Flag(omode, O_CREAT))
    case UnlinkCall(path) => Sysfile.UnlinkRoom(s.st.slots.Keys, s.st.files, StartOf(path, s.c), Elements(path))
    case _ => true
  }

  /** The call goes through the inode table. */
  predicate WalksPath(call: Call) { call.OpenCall? || call.UnlinkCall? }

  /** What a call does to the server, its result, and the bytes it hands out. */
  ghost predicate Did(s: Sys, call: Call, s': Sys, r: int, dst: seq<Byte>)
  {
    match call
    case OpenCall(path, omode) => dst == [] && DidOpen(s, s', StartOf(path, s.c), Elements(path), omode, r)
    case CloseCall(fd) => dst == [] && CloseOk(s, s', fd, r)
    case ReadCall(fd, n) =>
      if Behind(s, fd) == NFILE then r == -1 && dst == [] && s' == s else FileReadOk(s, s', Behind(s, fd), n, r, dst)
    case WriteCall(fd, src, n) => dst == [] && DidWrite(s, s', fd, src, n, r)
    case PReadCall(fd, n, off) => PReadOk(s, s', fd, n, off, r, dst)
    case PWriteCall(fd, src, n, off) => dst == [] && exists moved :: PWriteOk(s, s', fd, src, n, off, r, moved)
    case SeekCall(fd, off, whence) =>
      dst == [] && if Behind(s, fd) == NFILE then r == -1 && s' == s else SeekOk(s, s', Behind(s, fd), off, whence, r)
    case UnlinkCall(path) =>
      dst == [] && s' == s.(st := s'.st) && Sysfile.UnlinkOk(s.st, s'.st, StartOf(path, s.c), Elements(path), r)
    case Unknown => dst == [] && r == -EINVAL && s' == s
  }

  ghost predicate DidOpen(s: Sys, s': Sys, start: nat, els: seq<Name>, omode: int, r: int)
  {
    exists st1, f, ip, t :: OpenOk(s, s', st1, start, els, omode, r, f, ip, t)
  }

  ghost predicate DidWrite(s: Sys, s': Sys, fd: int, src: seq<Byte>, n: int, r: int)
  {
    if Behind(s, fd) == NFILE then r == -1 && s' == s
    else exists moved :: FileWriteOk(s, s', Behind(s, fd), src, n, r, moved)
  }

  /** The one call that breaks the invariant: an open that truncates an existing file with a
      double-indirect block. */
  ghost predicate Breaks(s: Sys, call: Call, r: int)
  {
    call.OpenCall? && !Flag(call.omode, O_CREAT) && r >= 0
    && Dangles(s.st, Resolve(s.st.files, StartOf(call.path, s.c), Elements(call.path)), call.omode)
  }

  lemma OpenBreaksIff(s: Sys, s': Sys, st1: State, path: seq<Byte>, omode: int, r: int, f: nat, ip: nat, t: nat)
    requires OpenOk(s, s', st1, StartOf(path, s.c), Elements(path), omode, r, f, ip, t)
    ensures Breaks(s, OpenCall(path, omode), r) <==> r >= 0 && !Flag(omode, O_CREAT) && Dangles(s.st, t, omode)
  {
    hide Elements, Standing, Walked, OpenedOk, Sysfile.CreateOk, Dangles, Resolve;
  }

  /** One call, whatever it is, as long as it finds the entries it needs in the inode table. */
  method Serve(server: Server, call: Call) returns (r: int, dst: seq<Byte>, dangles: bool)
    requires server.Valid() && WellFormed(call) && Polite(server.S(), call) && HasRoom(server.S(), call)
    modifies server, server.fs, server.fs.store
    ensures Did(old(server.S()), call, server.S(), r, dst)
    ensures dangles <==> Breaks(old(server.S()), call, r)
    ensures server.Valid() <==> !dangles
  {
    hide Views, Inv, SysOk, OpenOk, CloseOk, FileReadOk, FileWriteOk, SeekOk, Sysfile.UnlinkOk, PReadOk, PWriteOk,
         NoDirectoryWritten, Elements, Breaks, Dangles, OpenRoom, Sysfile.UnlinkRoom;
    ghost var s := server.S();
    dst, dangles := [], false;
    match call {
      case OpenCall(path, omode) =>
        var ip;
        ghost var f, t, st1;
        r, ip, dangles, f, t, st1 := server.Open(path, omode);
        OpenBreaksIff(s, server.S(), st1, path, omode, r, f, ip, t);
      case CloseCall(fd) => r := server.Close(fd);
      case ReadCall(fd, n) => r, dst := server.Read(fd, n);
      case WriteCall(fd, src, n) =>
        ghost var moved;
        r, moved := server.Write(fd, src, n);
      case PReadCall(fd, n, off) => r, dst := server.PRead(fd, n, off);
      case PWriteCall(fd, src, n, off) =>
        ghost var moved;
        r, moved := server.PWrite(fd, src, n, off);
      case SeekCall(fd, off, whence) =>
        DescriptorFacts(s, fd);
        var f := server.ArgFd(fd);
        if f == NFILE {
          r := -1;
        } else {
          EntryFacts(s, f);
          r := server.FileSeek(f, off, whence);
        }
      case UnlinkCall(path) => r := server.Remove(path);
      case Unknown => r := -EINVAL;
    }
    assert !call.OpenCall? ==> !Breaks(s, call, r) by { OnlyOpenBreaks(s, call, r); }
  }

  lemma OnlyOpenBreaks(s: Sys, call: Call, r: int)
    ensures !call.OpenCall? ==> !Breaks(s, call, r)
  {
    hide Elements, Dangles;
  }

  // ---------- runs, as sequences of steps ----------

  /** Whatever a call does that keeps to the rules, it keeps the server in order, but for the
      one truncation. */
  lemma StepKeepsOrder(s: Sys, call: Call, s': Sys, r: int, dst: seq<Byte>)
    requires SysOk(s) && Polite(s, call) && Did(s, call, s', r, dst)
    ensures SysOk(s') <==> !Breaks(s, call, r)
  {
    hide SysOk, Elements, FileReadOk, FileWriteOk, SeekOk, PReadOk, PWriteOk, Sysfile.UnlinkOk, OpenOk, CloseOk,
         NoDirectoryWritten, Breaks, Dangles;
    OnlyOpenBreaks(s, call, r);
    match call {
      case OpenCall(path, omode) =>
        var st1, f, ip, t :| OpenOk(s, s', st1, StartOf(path, s.c), Elements(path), omode, r, f, ip, t);
        OpenKeepsSysIff(s, s', st1, StartOf(path, s.c), Elements(path), omode, r, f, ip, t);
        OpenBreaksIff(s, s', st1, path, omode, r, f, ip, t);
      case CloseCall(fd) => CloseKeepsSys(s, s', fd, r);
      case ReadCall(fd, n) => if Behind(s, fd) != NFILE { FileReadKeeps(s, s', fd, s, n, r, dst); }
      case WriteCall(fd, src, n) =>
        if Behind(s, fd) != NFILE {
          var moved :| FileWriteOk(s, s', Behind(s, fd), src, n, r, moved);
          FileWriteKeeps(s, s', fd, s, src, n, r, moved);
        }
      case PReadCall(fd, n, off) => PReadKeeps(s, s', fd, n, off, r, dst);
      case PWriteCall(fd, src, n, off) =>
        var moved :| PWriteOk(s, s', fd, src, n, off, r, moved);
        PWriteKeeps(s, s', fd, src, n, off, r, moved);
      case SeekCall(fd, off, whence) => if Behind(s, fd) != NFILE { SeekOkKeeps(s, s', Behind(s, fd), off, whence, r); }
      case UnlinkCall(path) => UnlinkKeepsSys(s, s'.st, StartOf(path, s.c), Elements(path), r);
      case Unknown =>
    }
  }

  lemma SeekOkKeeps(s: Sys, s': Sys, f: nat, off: int, whence: int, r: int)
    requires SysOk(s) && SeekOk(s, s', f, off, whence, r)
    ensures SysOk(s')
  {
    hide SysOk, Seeked;
    SeekKeepsSys(s, f, off, whence);
  }

  /** State `s1` is `s`, or `s` with another offset of the file behind `fd`. */
  lemma FileReadKeeps(s: Sys, s': Sys, fd: int, s1: Sys, n: int, r: int, dst: seq<Byte>)
    requires SysOk(s) && SysOk(s1) && s1.held == s.held && s1.ofile == s.ofile && Behind(s, fd) != NFILE
    requires FileReadOk(s1, s', Behind(s, fd), n, r, dst)
    ensures SysOk(s')
  {
    hide SysOk, ReadOk;
    DescriptorFacts(s1, fd);
    var (f, e) := (Behind(s, fd), s1.ftable[Behind(s, fd)]);
    if e.readable && e.typ != FdDevice { ReadKeepsSys(s1, s'.st, f, ToUint(n), dst); }
  }

  lemma FileWriteKeeps(s: Sys, s': Sys, fd: int, s1: Sys, src: seq<Byte>, n: int, r: int, moved: nat)
    requires SysOk(s) && SysOk(s1) && s1.held == s.held && s1.ofile == s.ofile && Behind(s, fd) != NFILE
    requires NoDirectoryWritten(s1, fd) && FileWriteOk(s1, s', Behind(s, fd), src, n, r, moved)
    ensures SysOk(s')
  {
    hide SysOk, WroteOk, IsDirFile;
    DescriptorFacts(s1, fd);
    var (f, e) := (Behind(s, fd), s1.ftable[Behind(s, fd)]);
    if e.writable && e.typ != FdDevice {
      AfterChunks(s1, s', f, if n < 0 then [] else src[..n], r, moved);
    }
  }

  lemma SeekedFacts(s: Sys, fd: int, off: int)
    requires SysOk(s)
    ensures var s1 := Seeked(s, Behind(s, fd), off, SEEK_SET);
      && SysOk(s1) && s1.held == s.held && s1.ofile == s.ofile && s1.st == s.st
      && (NoDirectoryWritten(s, fd) ==> NoDirectoryWritten(s1, fd))
  {
    hide SysOk, IsDirFile;
    SeekKeepsSys(s, Behind(s, fd), off, SEEK_SET);
  }

  lemma PReadKeeps(s: Sys, s': Sys, fd: int, n: int, off: int, r: int, dst: seq<Byte>)
    requires SysOk(s) && PReadOk(s, s', fd, n, off, r, dst)
    ensures SysOk(s')
  {
    hide SysOk, FileReadOk, Seeked;
    SeekedFacts(s, fd, off);
    var s1 := Seeked(s, Behind(s, fd), off, SEEK_SET);
    if Behind(s, fd) != NFILE && CanSeek(s, Behind(s, fd), SEEK_SET) && ToUint(off) < 0x8000_0000 {
      FileReadKeeps(s, s', fd, s1, n, r, dst);
    }
  }

  lemma PWriteKeeps(s: Sys, s': Sys, fd: int, src: seq<Byte>, n: int, off: int, r: int, moved: nat)
    requires SysOk(s) && PWriteOk(s, s', fd, src, n, off, r, moved) && NoDirectoryWritten(s, fd)
    ensures SysOk(s')
  {
    hide SysOk, FileWriteOk, Seeked, NoDirectoryWritten;
    SeekedFacts(s, fd, off);
    var s1 := Seeked(s, Behind(s, fd), off, SEEK_SET);
    if Behind(s, fd) != NFILE && CanSeek(s, Behind(s, fd), SEEK_SET) && ToUint(off) < 0x8000_0000 {
      FileWriteKeeps(s, s', fd, s1, src, n, r, moved);
    }
  }

  datatype Reply = Reply(r: int, dst: seq<Byte>)

  /** From state to state the first calls of `calls` are served, each keeping to the rules. */
  ghost predicate Ran(trace: seq<Sys>, calls: seq<Call>, replies: seq<Reply>)
  {
    && |trace| == |replies| + 1 && |replies| <= |calls|
    && forall k {:trigger replies[k]} :: 0 <= k < |replies| ==>
         Polite(trace[k], calls[k]) && Did(trace[k], calls[k], trace[k + 1], replies[k].r, replies[k].dst)
  }

  ghost predicate BreaksAt(trace: seq<Sys>, calls: seq<Call>, replies: seq<Reply>, k: nat)
  {
    k < |replies| && k < |trace| && k < |calls| && Breaks(trace[k], calls[k], replies[k].r)
  }

  /** However long a run is, the server is in order up to the first truncation that dangles,
      and out of order right after it. */
  lemma {:induction false} RunKeepsOrder(trace: seq<Sys>, calls: seq<Call>, replies: seq<Reply>, n: nat)
    requires Ran(trace, calls, replies) && SysOk(trace[0]) && n <= |replies|
    requires forall k: nat :: k + 1 < n ==> !BreaksAt(trace, calls, replies, k)
    ensures n == 0 || !BreaksAt(trace, calls, replies, n - 1) <==> SysOk(trace[n])
  {
    hide SysOk, Polite, Did, Breaks;
    if n > 0 {
      RunKeepsOrder(trace, calls, replies, n - 1);
      assert n == 1 || !BreaksAt(trace, calls, replies, n - 2);
      StepKeepsOrder(trace[n - 1], calls[n - 1], trace[n], replies[n - 1].r, replies[n - 1].dst);
    }
  }

  // ---------- what is lost ----------

  /** The file behind `f` is asked for bytes on the way to which a block is missing. */
  ghost predicate MeetsHole(s: Sys, f: nat, n: int)
  {
    f < |s.held| && f < |s.ftable|
    && Wanted(s.st, s.held[f], SlotsIn(s.ftable[f].off, ReadCount(FileSize(s, f), s.ftable[f].off, ToUint(n)))) != {}
  }

  /** The call is to read from a hole. */
  ghost predicate ReadsHole(s: Sys, call: Call)
  {
    match call
    case ReadCall(fd, n) => MeetsHole(s, Behind(s, fd), n)
    case PReadCall(fd, n, off) => MeetsHole(Seeked(s, Behind(s, fd), off, SEEK_SET), Behind(s, fd), n)
    case _ => false
  }

  /** No other call loses a block, or leaves one to be lost. */
  lemma StepKeepsTidy(s: Sys, call: Call, s': Sys, r: int, dst: seq<Byte>)
    requires SysOk(s) && Did(s, call, s', r, dst) && !ReadsHole(s, call) && Tidy(s.st)
    ensures Tidy(s'.st)
  {
    hide SysOk, Elements, FileReadOk, FileWriteOk, SeekOk, PReadOk, PWriteOk, Sysfile.UnlinkOk, OpenOk, CloseOk,
         MeetsHole, Tidy, Seeked;
    match call {
      case OpenCall(path, omode) =>
        var st1, f, ip, t :| OpenOk(s, s', st1, StartOf(path, s.c), Elements(path), omode, r, f, ip, t);
        OpenKeepsTidy(s, s', st1, StartOf(path, s.c), Elements(path), omode, r, f, ip, t);
      case CloseCall(fd) => CloseKeepsTidy(s, s', fd, r);
      case ReadCall(fd, n) =>
        if Behind(s, fd) != NFILE { FileReadKeepsTidy(s, s', Behind(s, fd), n, r, dst); }
      case WriteCall(fd, src, n) =>
        if Behind(s, fd) != NFILE {
          var moved :| FileWriteOk(s, s', Behind(s, fd), src, n, r, moved);
          FileWriteKeepsTidy(s, s', Behind(s, fd), src, n, r, moved);
        }
      case PReadCall(fd, n, off) => PReadKeepsTidy(s, s', fd, n, off, r, dst);
      case PWriteCall(fd, src, n, off) =>
        var moved :| PWriteOk(s, s', fd, src, n, off, r, moved);
        PWriteKeepsTidy(s, s', fd, src, n, off, r, moved);
      case SeekCall(fd, off, whence) =>
        if Behind(s, fd) != NFILE { assert s'.st == s.st by { SeekKeepsState(s, s', fd, off, whence, r); } }
      case UnlinkCall(path) => UnlinkKeepsTidy(s.st, s'.st, StartOf(path, s.c), Elements(path), r);
      case Unknown =>
    }
  }

  lemma SeekKeepsState(s: Sys, s': Sys, fd: int, off: int, whence: int, r: int)
    requires SeekOk(s, s', Behind(s, fd), off, whence, r)
    ensures s'.st == s.st
  {
  }

  lemma UnlinkKeepsTidy(st: State, st': State, start: nat, els: seq<Name>, r: int)
    requires Sysfile.UnlinkOk(st, st', start, els, r) && Tidy(st)
    ensures Tidy(st')
  {
    hide Tidy, Holding, NsOk, RootMap, ResolveParent;
    if Sysfile.UnlinkRefuses(st.files, start, els) { SameDiskTidy(st, st'); }
  }

  lemma OpenKeepsTidy(s: Sys, s': Sys, st1: State, start: nat, els: seq<Name>, omode: int, r: int, f: nat, ip: nat,
                      t: nat)
    requires SysOk(s) && OpenOk(s, s', st1, start, els, omode, r, f, ip, t) && Tidy(s.st)
    ensures Tidy(s'.st)
  {
    hide SysOk, Tidy, Looked, NotOpened, NewEntry, WithTrunc;
    LookKeepsTidy(s.st, st1, start, els, Flag(omode, O_CREAT), ip, t);
    if ip != NINODE {
      TruncKeepsTidy(st1, t);
      if r == -1 { NotOpenedKeepsTidy(s, s', st1, t); }
    }
  }

  lemma NotOpenedKeepsTidy(s: Sys, s': Sys, st1: State, t: nat)
    requires NotOpened(s, s', st1, t) && Tidy(st1)
    ensures Tidy(s'.st)
  {
    hide Tidy, Holding, PutOk;
    SameDiskTidy(st1, s'.st);
  }

  lemma LookKeepsTidy(st: State, st1: State, start: nat, els: seq<Name>, creat: bool, ip: nat, t: nat)
    requires Looked(st, st1, start, els, creat, ip, t) && Tidy(st)
    ensures Tidy(st1)
  {
    hide Tidy, Holding, NsOk, RootMap, Resolve, ResolveParent, Inv, TreeOk, Cached, HasPlace, Extended, FirstEmptyTaken;
    if SameDisk(st, st1) { SameDiskTidy(st, st1); }
  }

  lemma TruncKeepsTidy(st: State, t: nat)
    requires Tidy(st)
    ensures Tidy(WithTrunc(st, t))
  {
    hide Truncated, FileOf;
  }

  lemma CloseKeepsTidy(s: Sys, s': Sys, fd: int, r: int)
    requires CloseOk(s, s', fd, r) && Tidy(s.st)
    ensures Tidy(s'.st)
  {
    hide Tidy, PutOk, AfterPut;
    if s'.st != s.st { Sysfile.PutIsTidy(s.st, s'.st, s.held[Behind(s, fd)]); }
  }

  lemma FileReadKeepsTidy(s: Sys, s': Sys, f: nat, n: int, r: int, dst: seq<Byte>)
    requires SysOk(s) && FileReadOk(s, s', f, n, r, dst) && !MeetsHole(s, f, n) && Tidy(s.st)
    ensures Tidy(s'.st)
  {
    hide Tidy, SysOk, Wanted, SlotsIn, ReadCount, ReadOk;
    SysGives(s);
    if s.ftable[f].readable && s.ftable[f].typ != FdDevice { ReadsFile(s, s', f, n, r, dst); }
  }

  lemma ReadsFile(s: Sys, s': Sys, f: nat, n: int, r: int, dst: seq<Byte>)
    requires Inv(s.st, 0) && f < |s.ftable| && f < |s.held| && !MeetsHole(s, f, n) && Tidy(s.st)
    requires ReadOk(s.st, s'.st, s.held[f], s.ftable[f].off, ToUint(n), dst)
    ensures Tidy(s'.st)
  {
    hide Tidy, Inv, Wanted, SlotsIn, ReadCount, Quiet, ReadSoFar, FullDisk, AtHole;
    ReadOfNoHole(s.st, s'.st, s.held[f], s.ftable[f].off, ToUint(n), dst);
  }

  lemma FileWriteKeepsTidy(s: Sys, s': Sys, f: nat, src: seq<Byte>, n: int, r: int, moved: nat)
    requires FileWriteOk(s, s', f, src, n, r, moved) && Tidy(s.st)
    ensures Tidy(s'.st)
  {
    hide Tidy, Inv, NoLeak, RefsKept, Filled, AtHole, FullDisk, Splice;
  }

  lemma PReadKeepsTidy(s: Sys, s': Sys, fd: int, n: int, off: int, r: int, dst: seq<Byte>)
    requires SysOk(s) && PReadOk(s, s', fd, n, off, r, dst) && !ReadsHole(s, PReadCall(fd, n, off)) && Tidy(s.st)
    ensures Tidy(s'.st)
  {
    hide SysOk, FileReadOk, Seeked, MeetsHole, Tidy;
    SeekedFacts(s, fd, off);
    if Behind(s, fd) != NFILE && CanSeek(s, Behind(s, fd), SEEK_SET) && ToUint(off) < 0x8000_0000 {
      FileReadKeepsTidy(Seeked(s, Behind(s, fd), off, SEEK_SET), s', Behind(s, fd), n, r, dst);
    }
  }

  lemma PWriteKeepsTidy(s: Sys, s': Sys, fd: int, src: seq<Byte>, n: int, off: int, r: int, moved: nat)
    requires SysOk(s) && PWriteOk(s, s', fd, src, n, off, r, moved) && Tidy(s.st)
    ensures Tidy(s'.st)
  {
    hide SysOk, FileWriteOk, Seeked, Tidy;
    SeekedFacts(s, fd, off);
    if Behind(s, fd) != NFILE && CanSeek(s, Behind(s, fd), SEEK_SET) && ToUint(off) < 0x8000_0000 {
      FileWriteKeepsTidy(Seeked(s, Behind(s, fd), off, SEEK_SET), s', Behind(s, fd), src, n, r, moved);
    }
  }

  ghost predicate ReadsHoleAt(trace: seq<Sys>, calls: seq<Call>, k: nat)
  {
    k < |trace| && k < |calls| && ReadsHole(trace[k], calls[k])
  }

  /** In a run in which nobody reads from a hole no block is lost, however long it is. */
  lemma {:induction false} RunKeepsTidy(trace: seq<Sys>, calls: seq<Call>, replies: seq<Reply>, n: nat)
    requires Ran(trace, calls, replies) && SysOk(trace[0]) && Tidy(trace[0].st) && n <= |replies|
    requires forall k: nat :: k + 1 < n ==> !BreaksAt(trace, calls, replies, k)
    requires forall k: nat :: k < n ==> !ReadsHoleAt(trace, calls, k)
    ensures Tidy(trace[n].st)
  {
    hide SysOk, Polite, Did, Breaks, Tidy, ReadsHole;
    if n > 0 {
      RunKeepsTidy(trace, calls, replies, n - 1);
      RunKeepsOrder(trace, calls, replies, n - 1);
      assert n == 1 || !BreaksAt(trace, calls, replies, n - 2);
      assert !ReadsHoleAt(trace, calls, n - 1);
      StepKeepsTidy(trace[n - 1], calls[n - 1], trace[n], replies[n - 1].r, replies[n - 1].dst);
    }
  }

  // ---------- the loop ----------

  /** Tests what Polite says, on what the server has in memory. */
  method IsPolite(server: Server, call: Call) returns (ok: bool)
    requires server.Valid()
    ensures ok <==> Polite(server.S(), call)
  {
    hide Views, Inv, SysOk;
    if call.WriteCall? || call.PWriteCall? || call.SeekCall? {
      DescriptorFacts(server.S(), call.fd);
      var f := server.ArgFd(call.fd);
      if f == NFILE { return true; }
      EntryFacts(server.S(), f);
      HeldInode(server.S(), f);
      var d := server.fs.itable[server.ftable[f].ip].d;
      if call.SeekCall? {
        ok := call.whence == SEEK_END ==> ToUint(d.size + call.off) <= d.size;
      } else {
        ok := server.ftable[f].writable ==> d.typ != T_DIR;
      }
    } else {
      ok := true;
    }
  }

  lemma HeldInode(s: Sys, f: nat)
    requires SysOk(s) && f < |s.ftable| && s.ftable[f].ref > 0
    ensures |s.held| == |s.ftable| && s.ftable[f].ip < |s.st.itable| && s.held[f] < |s.st.files|
      && s.st.files[s.held[f]].File?
    ensures s.st.itable[s.ftable[f].ip].d.typ == s.st.files[s.held[f]].typ
  {
    EntryFacts(s, f);
    hide Inv, NsOk, TablesOk;
    HeldFacts(s.st, s.held[f]);
    TypeOfFile(s.st, s.held[f]);
  }

  /** Is there an empty entry in the inode table? */
  method HasEmptyEntry(server: Server) returns (ok: bool)
    requires server.Valid()
    ensures ok <==> |server.fs.slots| < NINODE
  {
    hide Views, Inv, SysOk;
    FewerThanTable(server.S());
    var k := 0;
    while k < NINODE
      invariant k <= NINODE && forall j {:trigger server.fs.itable[j]} :: 0 <= j < k ==> server.fs.itable[j].ref > 0
    {
      if server.fs.itable[k].ref == 0 { return true; }
      k := k + 1;
    }
    ok := false;
  }

  /** An empty entry is room enough for any call. */
  lemma EmptyEntryIsRoom(s: Sys, call: Call)
    requires SysOk(s) && |s.st.slots| < NINODE
    ensures HasRoom(s, call)
  {
    RootOfSys(s);
    hide Inv, TablesOk, LinksOk, Elements, Sysfile.UnlinkRoom, Sysfile.CreateRoom, NameRoom;
    if call.OpenCall? || call.UnlinkCall? {
      Sysfile.EmptyEntrySuffices(s.st.slots.Keys, s.st.files, StartOf(call.path, s.c), Elements(call.path));
    }
  }

  /** A run: calls are served until one breaks the rules, goes through a full inode table,
      or has truncated a file with a double-indirect block. */
  method Run(server: Server, calls: seq<Call>) returns (replies: seq<Reply>, dangles: bool, ghost trace: seq<Sys>)
    requires server.Valid() && forall k :: 0 <= k < |calls| ==> WellFormed(calls[k])
    modifies server, server.fs, server.fs.store
    ensures Ran(trace, calls, replies) && trace[0] == old(server.S()) && trace[|replies|] == server.S()
    ensures server.Valid() <==> !dangles
    ensures dangles <==> |replies| > 0 && BreaksAt(trace, calls, replies, |replies| - 1)
    ensures forall k: nat :: k + 1 < |replies| ==> !BreaksAt(trace, calls, replies, k)
    ensures |replies| < |calls| && !dangles ==>
      !Polite(server.S(), calls[|replies|]) || (WalksPath(calls[|replies|]) && |server.fs.slots| == NINODE)
  {
    hide Views, Inv, SysOk, Polite, WellFormed, Did, HasRoom, Breaks;
    replies, dangles, trace := [], false, [server.S()];
    while |replies| < |calls|
      invariant server.Valid() && Ran(trace, calls, replies) && trace[0] == old(server.S())
        && trace[|replies|] == server.S()
      invariant !dangles && forall k: nat :: k < |replies| ==> !BreaksAt(trace, calls, replies, k)
      decreases |calls| - |replies|
    {
      var call := calls[|replies|];
      var ok := IsPolite(server, call);
      if !ok { return; }
      var room := HasEmptyEntry(server);
      FewerThanTable(server.S());
      if WalksPath(call) && !room { return; }
      RoomEnough(server.S(), call);
      var r, dst;
      r, dst, dangles := Serve(server, call);
      RanMore(trace, calls, replies, server.S(), Reply(r, dst));
      replies := replies + [Reply(r, dst)];
      trace := trace + [server.S()];
      if dangles { return; }
    }
  }

  lemma RanMore(trace: seq<Sys>, calls: seq<Call>, replies: seq<Reply>, s': Sys, reply: Reply)
    requires Ran(trace, calls, replies) && |replies| < |calls| && Polite(trace[|replies|], calls[|replies|])
    requires Did(trace[|replies|], calls[|replies|], s', reply.r, reply.dst)
    ensures Ran(trace + [s'], calls, replies + [reply])
    ensures forall k: nat :: k < |replies| ==>
      BreaksAt(trace + [s'], calls, replies + [reply], k) == BreaksAt(trace, calls, replies, k)
    ensures BreaksAt(trace + [s'], calls, replies + [reply], |replies|) ==
      Breaks(trace[|replies|], calls[|replies|], reply.r)
  {
    hide Polite, Did, Breaks;
    var (trace', replies') := (trace + [s'], replies + [reply]);
    forall k: nat | k < |replies'|
      ensures Polite(trace'[k], calls[k])
      ensures Did(trace'[k], calls[k], trace'[k + 1], replies'[k].r, replies'[k].dst)
    {
      if k < |replies| { assert replies[k] == replies'[k]; }
    }
  }

  lemma FewerThanTable(s: Sys)
    requires SysOk(s)
    ensures |s.st.slots| <= NINODE == |s.st.itable|
    ensures (exists k: nat :: k < NINODE && k < |s.st.itable| && s.st.itable[k].ref == 0) <==> |s.st.slots| < NINODE
  {
    hide Inv, NsOk, TablesOk;
    RoomForOne(s.st);
    SlotsOfReferenced(s.st);
  }

  lemma RoomEnough(s: Sys, call: Call)
    requires SysOk(s) && (WalksPath(call) ==> |s.st.slots| < NINODE)
    ensures HasRoom(s, call)
  {
    hide SysOk, Sysfile.UnlinkRoom, OpenRoom, Elements;
    if WalksPath(call) { EmptyEntryIsRoom(s, call); }
  }
}
