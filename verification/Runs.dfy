/** What clients see over whole runs of the server: which calls can change a file, and that what
    one client wrote another reads back, however many calls lie between. */
module Runs {
  import opened Layout
  import opened BlockTree
  import opened Invariant
  import opened Directory
  import opened DirectoryOps
  import opened FileSystem
  import opened Path
  import opened References
  import opened Namei
  import opened Links
  import opened NameSpace
  import opened Sysfile
  import opened OpenFiles
  import opened Space
  import opened Server
  import opened Dispatch
  import opened Calls

  /** The call may change file `t`: it writes through a writable descriptor of it, opens its path
      to truncate it, unlinks its path, or closes a descriptor of it when it has no link left. */
  ghost predicate Touches(s: Sys, call: Call, t: nat)
  {
    match call
    case OpenCall(path, omode) =>
      omode / 64 % 2 == 0 && omode / 512 % 2 == 1 && AtPath(s, path) == t
      && t < |s.st.files| && s.st.files[t].File? && s.st.files[t].typ == 2
    case CloseCall(fd) => Inum(s, fd) == t && t < |s.st.files| && s.st.files[t].File? && s.st.files[t].nlink == 0
    case WriteCall(fd, _, _) => Inum(s, fd) == t && Writable(s, fd)
    case PWriteCall(fd, _, _, _) => Inum(s, fd) == t && Writable(s, fd)
    case UnlinkCall(path) => AtPath(s, path) == t
    case _ => false
  }

  predicate Writable(s: Sys, fd: int) { Behind(s, fd) < |s.ftable| && s.ftable[Behind(s, fd)].writable }

  ghost predicate IsFile(s: Sys, t: nat) { 0 < t < |s.st.files| && s.st.files[t].File? }

  ghost predicate SameFile(s: Sys, s': Sys, t: nat)
  {
    t < |s.st.files| == |s'.st.files| && s'.st.files[t] == s.st.files[t]
  }

  /** The call may change what paths name: it unlinks, or may create. */
  predicate Renames(call: Call) { call.UnlinkCall? || (call.OpenCall? && call.omode / 64 % 2 == 1) }

  /** No other call changes anything about a file, or about the root. */
  lemma OnlyTouchingChanges(s: Sys, call: Call, s': Sys, r: int, dst: seq<Byte>, t: nat)
    requires SysOk(s) && Did(s, call, s', r, dst) && IsFile(s, t) && !Touches(s, call, t) && (t == 1 ==> !Renames(call))
    ensures SameFile(s, s', t)
  {
    hide SysOk, Elements, FileReadOk, FileWriteOk, SeekOk, PReadOk, PWriteOk, UnlinkOk, OpenOk, CloseOk,
         SameFile, AtPath;
    match call {
      case OpenCall(path, omode) =>
        var st1, f, ip, t0 :| OpenOk(s, s', st1, StartOf(path, s.c), Elements(path), omode, r, f, ip, t0);
        OpenFrame(s, s', path, omode, r, f, ip, t0, st1, t);
      case CloseCall(fd) => CloseFrame(s, s', fd, r, t);
      case ReadCall(fd, n) =>
        if Behind(s, fd) != NFILE { ReadFrame(s, s', Behind(s, fd), n, r, dst, t); } else { Still(s, s', t); }
      case WriteCall(fd, src, n) =>
        if Behind(s, fd) != NFILE {
          var moved :| FileWriteOk(s, s', Behind(s, fd), src, n, r, moved);
          WriteFrame(s, s', Behind(s, fd), src, n, r, moved, t);
        } else { Still(s, s', t); }
      case PReadCall(fd, n, off) => PReadFrame(s, s', fd, n, off, r, dst, t);
      case PWriteCall(fd, src, n, off) =>
        var moved :| PWriteOk(s, s', fd, src, n, off, r, moved);
        PWriteFrame(s, s', fd, src, n, off, r, moved, t);
      case SeekCall(fd, off, whence) =>
        if Behind(s, fd) != NFILE { SeekFrame(s, s', Behind(s, fd), off, whence, r, t); } else { Still(s, s', t); }
      case UnlinkCall(path) => UnlinkFrame(s, s', path, r, t);
      case Unknown => Still(s, s', t);
    }
  }

  lemma Still(s: Sys, s': Sys, t: nat)
    requires s' == s && IsFile(s, t)
    ensures SameFile(s, s', t)
  {
  }

  lemma ReadFrame(s: Sys, s': Sys, f: nat, n: int, r: int, dst: seq<Byte>, t: nat)
    requires FileReadOk(s, s', f, n, r, dst) && IsFile(s, t)
    ensures SameFile(s, s', t)
  {
    hide ReadOk;
    if s.ftable[f].readable && s.ftable[f].typ != FdDevice {
      ReadKeepsFiles(s.st, s'.st, s.held[f], s.ftable[f].off, ToUint(n), dst);
    }
  }

  lemma WriteFrame(s: Sys, s': Sys, f: nat, src: seq<Byte>, n: int, r: int, moved: nat, t: nat)
    requires FileWriteOk(s, s', f, src, n, r, moved) && IsFile(s, t)
    requires !(HeldBy(s, f) == t && f < |s.ftable| && s.ftable[f].writable)
    ensures SameFile(s, s', t)
  {
    hide WroteOk;
    if s.ftable[f].writable && s.ftable[f].typ != FdDevice {
      WroteGives(s, s', f, if n < 0 then [] else src[..n], r, moved);
    }
  }

  lemma SeekFrame(s: Sys, s': Sys, f: nat, off: int, whence: int, r: int, t: nat)
    requires SeekOk(s, s', f, off, whence, r) && IsFile(s, t)
    ensures SameFile(s, s', t)
  {
  }

  lemma PReadFrame(s: Sys, s': Sys, fd: int, n: int, off: int, r: int, dst: seq<Byte>, t: nat)
    requires PReadOk(s, s', fd, n, off, r, dst) && IsFile(s, t)
    ensures SameFile(s, s', t)
  {
    hide FileReadOk;
    var (f, s1) := (Behind(s, fd), Seeked(s, Behind(s, fd), off, SEEK_SET));
    assert s1.st == s.st;
    if f != NFILE && CanSeek(s, f, SEEK_SET) && ToUint(off) < 0x8000_0000 { ReadFrame(s1, s', f, n, r, dst, t); }
  }

  lemma PWriteFrame(s: Sys, s': Sys, fd: int, src: seq<Byte>, n: int, off: int, r: int, moved: nat, t: nat)
    requires PWriteOk(s, s', fd, src, n, off, r, moved) && IsFile(s, t) && !(Inum(s, fd) == t && Writable(s, fd))
    ensures SameFile(s, s', t)
  {
    hide FileWriteOk;
    var (f, s1) := (Behind(s, fd), Seeked(s, Behind(s, fd), off, SEEK_SET));
    assert s1.st == s.st && s1.held == s.held;
    if f != NFILE && CanSeek(s, f, SEEK_SET) && ToUint(off) < 0x8000_0000 {
      WriteFrame(s1, s', f, src, n, r, moved, t);
    }
  }

  lemma CloseFrame(s: Sys, s': Sys, fd: int, r: int, t: nat)
    requires SysOk(s) && CloseOk(s, s', fd, r) && IsFile(s, t) && !Touches(s, CloseCall(fd), t)
    ensures SameFile(s, s', t)
  {
    hide SysOk, CloseOk;
    CloseGives(s, s', fd, r);
  }

  lemma UnlinkFrame(s: Sys, s': Sys, path: seq<Byte>, r: int, t: nat)
    requires SysOk(s) && UnlinkOk(s.st, s'.st, StartOf(path, s.c), Elements(path), r)
    requires IsFile(s, t) && AtPath(s, path) != t && t > 1
    ensures SameFile(s, s', t)
  {
    RootOfSys(s);
    hide Inv, NsOk, TablesOk, UnlinkOk, Elements, Resolve;
    UnlinkGives(s.st, s'.st, Elements(path), r, []);
  }

  lemma OpenFrame(s: Sys, s': Sys, path: seq<Byte>, omode: int, r: int, f: nat, ip: nat, t0: nat, st1: State, t: nat)
    requires SysOk(s) && OpenOk(s, s', st1, StartOf(path, s.c), Elements(path), omode, r, f, ip, t0)
    requires IsFile(s, t) && !Touches(s, OpenCall(path, omode), t) && (t == 1 ==> omode / 64 % 2 == 0)
    ensures SameFile(s, s', t)
  {
    hide SysOk, Elements, Looked, OpenedOk, AtOpen;
    LookFrame(s, st1, path, omode, ip, t0, t);
    if ip != NINODE {
      LookedFile(s, st1, StartOf(path, s.c), Elements(path), Flag(omode, O_CREAT), ip, t0);
      if t == 1 { RootOfSys(s); }
      OpenedFrame(s, s', st1, ip, t0, omode, r, f, t);
    }
  }

  /** Finding or creating the file to open. */
  lemma LookFrame(s: Sys, st1: State, path: seq<Byte>, omode: int, ip: nat, t0: nat, t: nat)
    requires SysOk(s) && Looked(s.st, st1, StartOf(path, s.c), Elements(path), Flag(omode, O_CREAT), ip, t0)
    requires IsFile(s, t) && (t == 1 ==> omode / 64 % 2 == 0)
    ensures |st1.files| == |s.st.files| && st1.files[t] == s.st.files[t]
    ensures ip != NINODE ==> if Flag(omode, O_CREAT) then t0 != t else t0 == AtPath(s, path)
  {
    RootOfSys(s);
    hide Inv, NsOk, TablesOk, CreateOk, Elements, Resolve, Holding;
    if Flag(omode, O_CREAT) { CreateGives(s.st, st1, Elements(path), File(T_FILE, 0, 0, 1, []), ip, t0, []); }
  }

  lemma OpenedFrame(s: Sys, s': Sys, st1: State, ip: nat, t0: nat, omode: int, r: int, f: nat, t: nat)
    requires AtOpen(s, st1, ip, t0) && OpenedOk(s, s', st1, t0, omode, r, f) && t < |st1.files|
    requires t0 == t ==> !Truncates(st1.files[t], omode)
    ensures |s'.st.files| == |st1.files| && s'.st.files[t] == st1.files[t]
  {
    hide AtOpen, WithTrunc, NewEntry, Holding, PutOk;
    TruncatedBytes(s, st1, ip, t0);
  }

  // ---------- over a run ----------

  /** The server is in order all along a run in which no truncation dangles. */
  lemma {:induction false} InOrder(trace: seq<Sys>, calls: seq<Call>, replies: seq<Reply>, n: nat)
    requires Ran(trace, calls, replies) && SysOk(trace[0]) && n <= |replies|
    requires forall k: nat :: k < n ==> !BreaksAt(trace, calls, replies, k)
    ensures SysOk(trace[n])
  {
    hide SysOk, Polite, Did, Breaks;
    RunKeepsOrder(trace, calls, replies, n);
  }

  /** A file stays the same as long as no call touches it, however many calls there are. */
  lemma {:induction false} RunKeepsFile(trace: seq<Sys>, calls: seq<Call>, replies: seq<Reply>, a: nat, b: nat, t: nat)
    requires Ran(trace, calls, replies) && SysOk(trace[0]) && a <= b <= |replies|
    requires forall k: nat :: k < b ==> !BreaksAt(trace, calls, replies, k)
    requires IsFile(trace[a], t) && t > 1 && forall k :: a <= k < b ==> !Touches(trace[k], calls[k], t)
    ensures SameFile(trace[a], trace[b], t)
  {
    hide SysOk, Polite, Did, Breaks, Touches;
    if a < b {
      RunKeepsFile(trace, calls, replies, a, b - 1, t);
      InOrder(trace, calls, replies, b - 1);
      assert Did(trace[b - 1], calls[b - 1], trace[b], replies[b - 1].r, replies[b - 1].dst);
      OnlyTouchingChanges(trace[b - 1], calls[b - 1], trace[b], replies[b - 1].r, replies[b - 1].dst, t);
    }
  }

  /** What paths name stays the same as long as no call creates or unlinks. */
  lemma {:induction false} RunKeepsNames(trace: seq<Sys>, calls: seq<Call>, replies: seq<Reply>, a: nat, b: nat,
                                         q: seq<Byte>)
    requires Ran(trace, calls, replies) && SysOk(trace[0]) && a <= b <= |replies|
    requires forall k: nat :: k < b ==> !BreaksAt(trace, calls, replies, k)
    requires forall k :: a <= k < b ==> !Renames(calls[k])
    ensures AtPath(trace[b], q) == AtPath(trace[a], q)
  {
    hide SysOk, Polite, Did, Breaks, Renames, AtPath;
    if a < b {
      RunKeepsNames(trace, calls, replies, a, b - 1, q);
      InOrder(trace, calls, replies, b - 1);
      InOrder(trace, calls, replies, b);
      var k := b - 1;
      assert Did(trace[k], calls[k], trace[k + 1], replies[k].r, replies[k].dst) && Polite(trace[k], calls[k]);
      OnlyRenamingChanges(trace[k], calls[k], trace[k + 1], replies[k].r, replies[k].dst, q);
    }
  }

  lemma OnlyRenamingChanges(s: Sys, call: Call, s': Sys, r: int, dst: seq<Byte>, q: seq<Byte>)
    requires SysOk(s) && SysOk(s') && Polite(s, call) && Did(s, call, s', r, dst) && !Renames(call)
    ensures AtPath(s', q) == AtPath(s, q)
  {
    RootOfSys(s);
    RootOfSys(s');
    assert !Touches(s, call, 1) by { RootUntouched(s, call); }
    hide Inv, TablesOk, Did, Polite, Touches, Elements, Resolve, LinksOk;
    OnlyTouchingChanges(s, call, s', r, dst, 1);
    assert OneDir(s.st.files) by { OneDirOf(s.st); }
    assert OneDir(s'.st.files) by { OneDirOf(s'.st); }
    NamesKept(s.st.files, s'.st.files, Elements(q));
  }

  lemma RootUntouched(s: Sys, call: Call)
    requires SysOk(s) && Polite(s, call) && !Renames(call)
    ensures IsFile(s, 1) && !Touches(s, call, 1)
  {
    RootOfSys(s);
    CountOfRefs(s, 1);
    hide SysOk, AtPath;
  }

  /** What a call that writes all it was given leaves in the file. */
  lemma WriteLeaves(s: Sys, s': Sys, fd: int, src: seq<Byte>, r: int, dst: seq<Byte>, t: nat)
    requires Did(s, WriteCall(fd, src, |src|), s', r, dst) && r == |src| > 0 && t == Inum(s, fd) && IsFile(s, t)
    ensures IsFile(s', t)
    ensures var (off, bytes) := (Offset(s, fd), BytesOf(s'.st.files, t));
      off + |src| <= |bytes| && bytes[off..off + |src|] == src && off + |src| < 4294967296
  {
    hide WroteOk, OpenOk, CloseOk, PReadOk, PWriteOk, SeekOk, UnlinkOk, FileReadOk;
    var f := Behind(s, fd);
    var moved :| FileWriteOk(s, s', f, src, |src|, r, moved);
    assert src[..|src|] == src;
    WrittenIsThere(s, s', f, src, moved);
  }

  /** No block is missing under what is read. */
  lemma NoHoleUnder(s: Sys, f: nat, n: int)
    requires SysOk(s) && OpenRegular(s, f) && !MeetsHole(s, f, n)
    ensures var (t, off) := (s.held[f], s.ftable[f].off);
      t < |s.st.live| && RangeMapped(s.st.data, s.st.live[t], off, |Asked(BytesOf(s.st.files, t), off, n)|)
  {
    hide Inv, NsOk, TablesOk, SlotsIn, RangeMapped, Asked, ReadCount, Wanted;
    var (t, off) := (s.held[f], s.ftable[f].off);
    AskedCount(BytesOf(s.st.files, t), off, n);
    LengthsAgree(s.st);
    NoneWanted(s.st, t, off, |Asked(BytesOf(s.st.files, t), off, n)|);
  }

  lemma AskedCount(bytes: seq<Byte>, off: Uint, n: int)
    ensures |Asked(bytes, off, n)| == ReadCount(|bytes|, off, ToUint(n))
  {
  }

  lemma NoneWanted(st: State, t: nat, off: nat, n: nat)
    requires t < |st.live| && Wanted(st, t, SlotsIn(off, n)) == {}
    ensures RangeMapped(st.data, st.live[t], off, n)
  {
    hide SlotOf, Ptr, SlotsIn;
    forall bn: nat | n > 0 && off / BSIZE <= bn && bn * BSIZE < off + n
      ensures Ptr(st.data, st.live[t].addrs, SlotOf(bn)) != 0
    {
      var p := if bn == off / BSIZE then off else bn * BSIZE;
      assert p / BSIZE == bn;
      PathInRange(off, n, p);
      assert SlotOf(bn) in SlotsIn(off, n);
      assert SlotOf(bn) !in Wanted(st, t, SlotsIn(off, n));
    }
  }

  /** What is written is read back, over any run.  Call `j` of it writes all of `src` through some
      descriptor; call `k` reads through a descriptor, the same or another, of the same file; and
      none of the calls between touches the file.  Then what is read is what was written where it
      was written, and the file as it was elsewhere: all that is asked for, or less only if a block
      is missing under it. */
  lemma RunReadsBack(trace: seq<Sys>, calls: seq<Call>, replies: seq<Reply>, j: nat, k: nat, fd: int, src: seq<Byte>,
                     fd': int, n: int, t: nat)
    requires Ran(trace, calls, replies) && SysOk(trace[0]) && j < k < |replies|
    requires forall i: nat :: i < k ==> !BreaksAt(trace, calls, replies, i)
    requires calls[j] == WriteCall(fd, src, |src|) && replies[j].r == |src| > 0
    requires IsFile(trace[j], t) && Inum(trace[j], fd) == t > 1
    requires forall i :: j < i < k ==> !Touches(trace[i], calls[i], t)
    requires calls[k] == ReadCall(fd', n) && Inum(trace[k], fd') == t && OpenRegular(trace[k], Behind(trace[k], fd'))
    requires trace[k].ftable[Behind(trace[k], fd')].readable
    ensures var (bytes, off, from) := (BytesOf(trace[j + 1].st.files, t), Offset(trace[j], fd), Offset(trace[k], fd'));
      && off + |src| <= |bytes| && bytes[off..off + |src|] == src
      && replies[k].r == |replies[k].dst| && replies[k].dst <= Asked(bytes, from, n)
      && (!ReadsHole(trace[k], calls[k]) ==> replies[k].dst == Asked(bytes, from, n))
      && (!ReadsHole(trace[k], calls[k]) && from == off && n == |src| ==> replies[k].dst == src)
  {
    hide SysOk, Breaks, Touches, Polite, Did, RangeMapped, Asked;
    assert Did(trace[j], calls[j], trace[j + 1], replies[j].r, replies[j].dst);
    assert Did(trace[k], calls[k], trace[k + 1], replies[k].r, replies[k].dst);
    WriteLeaves(trace[j], trace[j + 1], fd, src, replies[j].r, replies[j].dst, t);
    RunKeepsFile(trace, calls, replies, j + 1, k, t);
    InOrder(trace, calls, replies, k);
    DescriptorFacts(trace[k], fd');
    ReadGets(trace[k], trace[k + 1], fd', n, replies[k].r, replies[k].dst);
    var (bytes, off) := (BytesOf(trace[j + 1].st.files, t), Offset(trace[j], fd));
    if n == |src| && Offset(trace[k], fd') == off { SourceIsAsked(bytes, off, src); }
  }

  lemma SourceIsAsked(bytes: seq<Byte>, off: nat, src: seq<Byte>)
    requires off + |src| <= |bytes| && bytes[off..off + |src|] == src && off + |src| < 4294967296
    ensures Asked(bytes, off, |src|) == src
  {
    assert bytes[off..][..|src|] == src;
  }

  /** What a read call gives. */
  lemma ReadGets(s: Sys, s': Sys, fd: int, n: int, r: int, dst: seq<Byte>)
    requires SysOk(s) && Did(s, ReadCall(fd, n), s', r, dst) && Behind(s, fd) != 100 && OpenRegular(s, Behind(s, fd))
    requires s.ftable[Behind(s, fd)].readable
    ensures var all := Asked(Bytes(s, fd), Offset(s, fd), n);
      r == |dst| && dst <= all && (!ReadsHole(s, ReadCall(fd, n)) ==> dst == all)
  {
    hide SysOk, FileReadOk, RangeMapped, Asked, MeetsHole;
    ReadThrough(s, s', Behind(s, fd), n, r, dst);
    if !MeetsHole(s, Behind(s, fd), n) { NoHoleUnder(s, Behind(s, fd), n); }
  }

  /** What a pwrite call that writes all it was given leaves in the file. */
  lemma PWriteLeaves(s: Sys, s': Sys, fd: int, src: seq<Byte>, off: int, r: int, dst: seq<Byte>, t: nat)
    requires Did(s, PWriteCall(fd, src, |src|, off), s', r, dst) && r == |src| > 0 && t == Inum(s, fd) && IsFile(s, t)
    requires 0 <= off < 4294967296
    ensures IsFile(s', t)
    ensures var bytes := BytesOf(s'.st.files, t);
      off + |src| <= |bytes| && bytes[off..off + |src|] == src && off + |src| < 4294967296
  {
    hide WroteOk, OpenOk, CloseOk, PReadOk, SeekOk, UnlinkOk, FileReadOk, Did;
    var moved := DidPWrite(s, s', fd, src, off, r, dst);
    var (f, s1) := (Behind(s, fd), Seeked(s, Behind(s, fd), off, SEEK_SET));
    assert src[..|src|] == src;
    WrittenIsThere(s1, s', f, src, moved);
  }

  lemma DidPWrite(s: Sys, s': Sys, fd: int, src: seq<Byte>, off: int, r: int, dst: seq<Byte>) returns (moved: nat)
    requires Did(s, PWriteCall(fd, src, |src|, off), s', r, dst)
    ensures PWriteOk(s, s', fd, src, |src|, off, r, moved)
  {
    hide OpenOk, CloseOk, PReadOk, PWriteOk, SeekOk, UnlinkOk, FileReadOk, FileWriteOk;
    moved :| PWriteOk(s, s', fd, src, |src|, off, r, moved);
  }

  /** What is written by pwrite is read back by pread, over any run: from where it was written, and
      all of it unless a block is missing under it. */
  lemma RunPReadsBack(trace: seq<Sys>, calls: seq<Call>, replies: seq<Reply>, j: nat, k: nat, fd: int, src: seq<Byte>,
                      off: int, fd': int, t: nat)
    requires Ran(trace, calls, replies) && SysOk(trace[0]) && j < k < |replies|
    requires forall i: nat :: i < k ==> !BreaksAt(trace, calls, replies, i)
    requires 0 <= off < 2147483648 && calls[j] == PWriteCall(fd, src, |src|, off) && replies[j].r == |src| > 0
    requires IsFile(trace[j], t) && Inum(trace[j], fd) == t > 1
    requires forall i :: j < i < k ==> !Touches(trace[i], calls[i], t)
    requires calls[k] == PReadCall(fd', |src|, off) && Inum(trace[k], fd') == t
    requires OpenRegular(trace[k], Behind(trace[k], fd')) && trace[k].ftable[Behind(trace[k], fd')].readable
    ensures replies[k].dst <= src && (!ReadsHole(trace[k], calls[k]) ==> replies[k].dst == src)
  {
    hide SysOk, Breaks, Touches, Polite, Did, RangeMapped, Asked;
    assert Did(trace[j], calls[j], trace[j + 1], replies[j].r, replies[j].dst);
    assert Did(trace[k], calls[k], trace[k + 1], replies[k].r, replies[k].dst);
    PWriteLeaves(trace[j], trace[j + 1], fd, src, off, replies[j].r, replies[j].dst, t);
    RunKeepsFile(trace, calls, replies, j + 1, k, t);
    InOrder(trace, calls, replies, k);
    DescriptorFacts(trace[k], fd');
    PReadGets(trace[k], trace[k + 1], fd', |src|, off, replies[k].r, replies[k].dst);
    SourceIsAsked(BytesOf(trace[j + 1].st.files, t), off, src);
  }

  /** What a pread call gives. */
  lemma PReadGets(s: Sys, s': Sys, fd: int, n: int, off: int, r: int, dst: seq<Byte>)
    requires SysOk(s) && Did(s, PReadCall(fd, n, off), s', r, dst) && Behind(s, fd) != 100
    requires OpenRegular(s, Behind(s, fd)) && s.ftable[Behind(s, fd)].readable && 0 <= off < 2147483648
    ensures var all := Asked(Bytes(s, fd), off, n);
      dst <= all && (!ReadsHole(s, PReadCall(fd, n, off)) ==> dst == all)
  {
    hide SysOk, FileReadOk, RangeMapped, Asked, MeetsHole;
    PReadGives(s, s', fd, n, off, r, dst);
    var s1 := Seeked(s, Behind(s, fd), off, SEEK_SET);
    SeekKeepsSys(s, Behind(s, fd), off, SEEK_SET);
    if !MeetsHole(s1, Behind(s, fd), n) { NoHoleUnder(s1, Behind(s, fd), n); }
  }
}
