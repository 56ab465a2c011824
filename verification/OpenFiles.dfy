/** The tables of open files and descriptors (xv6fs/src/file.c, and the descriptor part of
    xv6fs/src/sysfile.c), and the accounting that ties descriptors to open files, open
    files to inode references, and those to the inode table. */
module OpenFiles {
  import opened Layout
  import opened BlockTree
  import opened Invariant
  import opened Directory
  import opened DirectoryOps
  import opened References
  import opened Namei
  import opened Links

  const NFILE: nat := 100
  const NOFILE: nat := 16

  /** FD_PIPE is left out: nothing makes a pipe. */
  datatype FileType = FdNone | FdInode | FdDevice

  /** struct file. */
  datatype OpenFile = OpenFile(typ: FileType, ref: nat, readable: bool, writable: bool, ip: nat, off: Uint,
                               major: Short)

  /** The server's state.  `ofile` holds positions of `ftable`, NFILE standing for a null
      pointer; `held` is the inode of each open file, 0 for a free one; `c` is the inode of
      the current directory; `loose` are inode references that nothing will give back. */
  datatype Sys = Sys(st: State, ftable: seq<OpenFile>, ofile: seq<nat>, held: seq<nat>, cwd: nat, c: nat,
                     loose: multiset<nat>)

  /** An entry of the open-file table: it is referenced by `fds` descriptors, is of type
      FD_NONE just when there are none, and else holds inode `i`. */
  ghost predicate EntryOk(st: State, e: OpenFile, i: nat, fds: nat)
  {
    && e.ref == fds && (fds == 0 <==> e.typ == FdNone) && (fds == 0 <==> i == 0)
    && (fds > 0 ==> Cached(st.itable, st.slots, i) && st.slots[i] == e.ip)
  }

  /** References to inodes: one for each open file, one for the current directory, and the
      loose ones. */
  ghost predicate Accounted(st: State, held: seq<nat>, c: nat, loose: multiset<nat>)
  {
    forall j: nat {:trigger RefOf(st.itable, st.slots, j)} :: j != 0 ==>
      RefOf(st.itable, st.slots, j) == multiset(held)[j] + loose[j] + if j == c then 1 else 0
  }

  ghost predicate TablesOk(s: Sys)
  {
    && |s.ftable| == NFILE && |s.held| == NFILE && |s.ofile| == NOFILE
    && (forall fd {:trigger s.ofile[fd]} :: 0 <= fd < NOFILE ==> s.ofile[fd] <= NFILE)
    && s.ofile[0] == s.ofile[1] == s.ofile[2] == NFILE
    && (forall f {:trigger s.ftable[f]} :: 0 <= f < NFILE ==>
       EntryOk(s.st, s.ftable[f], s.held[f], multiset(s.ofile)[f]))
    && s.c in s.st.slots && s.st.slots[s.c] == s.cwd && IsDirFile(s.st.files, s.c)
    && Accounted(s.st, s.held, s.c, s.loose)
  }

  /** The invariant of the server. */
  ghost predicate SysOk(s: Sys) { Inv(s.st, 0) && NsOk(s.st) && TablesOk(s) }

  // ---------- what the accounting gives ----------

  function Elems(s: seq<nat>): set<nat> { set x | x in s }

  lemma {:induction false} SetOfSeq(s: seq<nat>)
    ensures |Elems(s)| <= |s|
  {
    if s != [] {
      SetOfSeq(s[1..]);
      var rest := Elems(s[1..]);
      forall x | x in Elems(s) ensures x in rest + {s[0]} { assert x == s[0] || x in s[1..]; }
      SubsetCard(Elems(s), rest + {s[0]});
      assert |rest + {s[0]}| <= |rest| + 1;
    }
  }

  const FIRSTFD: nat := 3

  /** The inodes that descriptors lead to; the first three are never given out. */
  function FdInodes(s: Sys): seq<nat>
  {
    if |s.ofile| < FIRSTFD then [] else
    var all: seq<nat> := seq(|s.ofile|, fd requires 0 <= fd < |s.ofile| => HeldBy(s, s.ofile[fd]));
    all[FIRSTFD..]
  }

  function HeldBy(s: Sys, f: nat): nat { if f < |s.held| then s.held[f] else 0 }

  lemma OpenHasFd(s: Sys, f: nat)
    requires TablesOk(s) && f < NFILE && s.held[f] != 0
    ensures s.held[f] in FdInodes(s)
  {
    assert EntryOk(s.st, s.ftable[f], s.held[f], multiset(s.ofile)[f]);
    assert f in multiset(s.ofile);
    var fd :| 0 <= fd < |s.ofile| && s.ofile[fd] == f;
    assert fd >= FIRSTFD && FdInodes(s)[fd - FIRSTFD] == s.held[f];
  }

  /** The inodes in the table are those of descriptors, the current directory, and those
      that failed creates have pinned. */
  lemma TableInodes(s: Sys)
    requires SysOk(s)
    ensures s.st.slots.Keys == (Elems(FdInodes(s)) + Distinct(s.loose) + {s.c}) - {0}
  {
    hide Inv, NsOk;
    ReferencedIffPositive(s.st);
    forall j: nat ensures j in s.st.slots <==> j != 0 && (j in FdInodes(s) || j in s.loose || j == s.c) {
      assert j in s.st.slots <==> RefOf(s.st.itable, s.st.slots, j) > 0;
      assert j != 0 ==>
        RefOf(s.st.itable, s.st.slots, j) == multiset(s.held)[j] + s.loose[j] + if j == s.c then 1 else 0;
      InodeOfFd(s, j);
    }
    hide TablesOk, FdInodes;
  }

  lemma InodeOfFd(s: Sys, j: nat)
    requires TablesOk(s)
    ensures j != 0 ==> (j in s.held <==> j in FdInodes(s))
  {
    if j != 0 && j in s.held {
      var f :| 0 <= f < |s.held| && s.held[f] == j;
      OpenHasFd(s, f);
    }
    if j != 0 && j in FdInodes(s) {
      var k :| 0 <= k < |FdInodes(s)| && FdInodes(s)[k] == j;
      assert j == HeldBy(s, s.ofile[k + FIRSTFD]);
    }
  }

  /** So "iget: no inodes" is out of reach until failed creates have pinned more than
      thirty-five inodes, that is, all entries but those for thirteen descriptors, the
      current directory and one more. */
  lemma TableHasRoom(s: Sys)
    requires SysOk(s) && |Distinct(s.loose)| <= NINODE - (NOFILE - FIRSTFD) - 2
    ensures |s.st.slots| < NINODE
  {
    TableInodes(s);
    var (fds, loose) := (Elems(FdInodes(s)), Distinct(s.loose));
    SetOfSeq(FdInodes(s));
    assert |FdInodes(s)| == NOFILE - FIRSTFD;
    hide SysOk, FdInodes, Elems, Distinct;
    SubsetCard(s.st.slots.Keys, fds + loose + {s.c});
    assert |fds + loose + {s.c}| <= |fds + loose| + 1;
    assert |fds + loose| <= |fds| + |loose|;
  }

  /** A free entry of the open-file table can always be found: filealloc never fails. */
  lemma FileTableHasRoom(s: Sys)
    requires TablesOk(s)
    ensures exists f :: 0 <= f < NFILE && s.ftable[f].ref == 0
  {
    if forall f :: 0 <= f < NFILE ==> s.ftable[f].ref != 0 {
      BelowFacts(NFILE);
      forall f | f in Below(NFILE) ensures f in Elems(s.ofile) { UsedHasFd(s, f); }
      SetOfSeq(s.ofile);
      assert |s.ofile| == NOFILE;
      hide TablesOk, Elems, Below;
      SubsetCard(Below(NFILE), Elems(s.ofile));
    }
  }

  lemma UsedHasFd(s: Sys, f: nat)
    requires TablesOk(s) && f < NFILE && s.ftable[f].ref != 0
    ensures f in s.ofile
  {
    assert EntryOk(s.st, s.ftable[f], s.held[f], multiset(s.ofile)[f]);
    assert f in multiset(s.ofile);
  }

  /** A file without names is still there just as long as a descriptor leads to it, or a
      loose reference pins it. */
  lemma OrphansAreOpen(s: Sys, i: nat)
    requires SysOk(s) && i < |s.st.files| && s.st.files[i].File? && s.st.files[i].nlink == 0
    ensures i in FdInodes(s) || i in s.loose
  {
    hide Inv, LinksOk;
    assert Cached(s.st.itable, s.st.slots, i);
    ReferencedIffPositive(s.st);
    assert RefOf(s.st.itable, s.st.slots, i) > 0;
    RootOnly(s, i);
    if i in s.held {
      var f :| 0 <= f < |s.held| && s.held[f] == i;
      OpenHasFd(s, f);
    }
  }

  lemma RootOnly(s: Sys, i: nat)
    requires NsOk(s.st) && IsDirFile(s.st.files, s.c)
    requires i < |s.st.files| && s.st.files[i].File? && s.st.files[i].nlink == 0
    ensures i != s.c
  {
    hide RootMap, IsDir;
    assert IsDirFile(s.st.files, s.c) <==> s.c == ROOTINO;
  }

  // ---------- how the steps of system calls keep it ----------

  /** After work that leaves the references in `more` behind, they are loose. */
  lemma Carried(s: Sys, st': State, more: multiset<nat>)
    requires TablesOk(s) && Holding(s.st, st', more) && Inv(s.st, 0) && IsDirFile(st'.files, s.c)
    ensures TablesOk(s.(st := st', loose := s.loose + more))
  {
    hide Inv, IsDirFile;
    ReferencedIffPositive(s.st);
    var s' := s.(st := st', loose := s.loose + more);
    forall f: nat | f < NFILE
      ensures EntryOk(st', s.ftable[f], s.held[f], multiset(s.ofile)[f])
    {
      assert EntryOk(s.st, s.ftable[f], s.held[f], multiset(s.ofile)[f]);
    }
    forall j: nat | j != 0
      ensures RefOf(st'.itable, st'.slots, j) == multiset(s.held)[j] + (s.loose + more)[j] + if j == s.c then 1 else 0
    {
      assert RefOf(st'.itable, st'.slots, j) == RefOf(s.st.itable, s.st.slots, j) + more[j];
    }
  }

  lemma UpdateCounts(s: seq<nat>, i: nat, v: nat)
    requires i < |s|
    ensures forall x: nat {:trigger multiset(s[i := v])[x]} ::
      multiset(s[i := v])[x] == multiset(s)[x] + (if x == v then 1 else 0) - (if x == s[i] then 1 else 0)
    ensures multiset(s)[s[i]] > 0
  {
    assert s[i] in multiset(s);
    assert multiset(s[i := v]) == multiset(s) - multiset{s[i]} + multiset{v};
  }

  lemma AccountsAgree(st: State, held: seq<nat>, held': seq<nat>, c: nat, loose: multiset<nat>, loose': multiset<nat>)
    requires Accounted(st, held, c, loose)
    requires forall j: nat {:trigger multiset(held')[j]} :: j != 0 ==>
      multiset(held')[j] + loose'[j] == multiset(held)[j] + loose[j]
    ensures Accounted(st, held', c, loose')
  {
    hide RefOf;
  }

  /** A loose reference becomes that of a new open file, with its first descriptor. */
  function Opened(s: Sys, fd: nat, f: nat, e: OpenFile, t: nat): Sys
  {
    if fd < |s.ofile| && f < |s.ftable| && f < |s.held|
    then s.(ofile := s.ofile[fd := f], ftable := s.ftable[f := e], held := s.held[f := t],
         loose := s.loose - multiset{t}) else s
  }

  lemma OpenedAccounts(st: State, held: seq<nat>, f: nat, c: nat, loose: multiset<nat>, t: nat)
    requires Accounted(st, held, c, loose) && f < |held| && held[f] == 0 && t in loose && t != 0
    ensures Accounted(st, held[f := t], c, loose - multiset{t})
  {
    hide Accounted;
    UpdateCounts(held, f, t);
    AccountsAgree(st, held, held[f := t], c, loose, loose - multiset{t});
  }

  lemma OpenedKeeps(s: Sys, fd: nat, f: nat, e: OpenFile, t: nat)
    requires TablesOk(s) && FIRSTFD <= fd < NOFILE && s.ofile[fd] == NFILE && f < NFILE && s.ftable[f].ref == 0
    requires t in s.loose && t != 0 && e.ref == 1 && e.typ != FdNone
    requires Cached(s.st.itable, s.st.slots, t) && s.st.slots[t] == e.ip
    ensures TablesOk(Opened(s, fd, f, e, t))
  {
    hide IsDirFile, Cached;
    var s' := Opened(s, fd, f, e, t);
    assert EntryOk(s.st, s.ftable[f], s.held[f], multiset(s.ofile)[f]);
    OpenedAccounts(s.st, s.held, f, s.c, s.loose, t);
    hide Accounted;
    UpdateCounts(s.ofile, fd, f);
    forall g: nat | g < NFILE
      ensures EntryOk(s.st, s'.ftable[g], s'.held[g], multiset(s'.ofile)[g])
    {
      assert EntryOk(s.st, s.ftable[g], s.held[g], multiset(s.ofile)[g]);
    }
  }

  /** dup. */
  function Duped(s: Sys, fd: nat, f: nat): Sys
  {
    if fd < |s.ofile| && f < |s.ftable|
      then s.(ofile := s.ofile[fd := f], ftable := s.ftable[f := s.ftable[f].(ref := s.ftable[f].ref + 1)]) else s
  }

  lemma DupedKeeps(s: Sys, fd: nat, f: nat)
    requires TablesOk(s) && FIRSTFD <= fd < NOFILE && s.ofile[fd] == NFILE && f < NFILE && s.ftable[f].ref > 0
    ensures TablesOk(Duped(s, fd, f))
  {
    var s' := Duped(s, fd, f);
    hide IsDirFile, Cached, Accounted;
    UpdateCounts(s.ofile, fd, f);
    forall g: nat | g < NFILE
      ensures EntryOk(s.st, s'.ftable[g], s'.held[g], multiset(s'.ofile)[g])
    {
      assert EntryOk(s.st, s.ftable[g], s.held[g], multiset(s.ofile)[g]);
    }
  }

  /** close of one of several descriptors. */
  function Dropped(s: Sys, fd: nat): Sys
  {
    if fd >= |s.ofile| || s.ofile[fd] >= |s.ftable| || s.ftable[s.ofile[fd]].ref == 0 then s
    else var f := s.ofile[fd];
      s.(ofile := s.ofile[fd := NFILE], ftable := s.ftable[f := s.ftable[f].(ref := s.ftable[f].ref - 1)])
  }

  /** close of the last descriptor sets the file's inode reference loose. */
  function Loosened(s: Sys, fd: nat): Sys
  {
    if fd >= |s.ofile| || s.ofile[fd] >= |s.ftable| || s.ofile[fd] >= |s.held| then s
    else var f := s.ofile[fd];
      s.(ofile := s.ofile[fd := NFILE], ftable := s.ftable[f := s.ftable[f].(ref := 0, typ := FdNone)],
         held := s.held[f := 0], loose := s.loose + multiset{s.held[f]})
  }

  lemma FdFacts(s: Sys, fd: nat)
    requires TablesOk(s) && fd < NOFILE && s.ofile[fd] < NFILE
    ensures var (e, i) := (s.ftable[s.ofile[fd]], s.held[s.ofile[fd]]);
      e.ref > 0 && e.typ != FdNone && i != 0 && Cached(s.st.itable, s.st.slots, i) && s.st.slots[i] == e.ip
  {
    var f := s.ofile[fd];
    assert EntryOk(s.st, s.ftable[f], s.held[f], multiset(s.ofile)[f]);
    UpdateCounts(s.ofile, fd, NFILE);
  }

  lemma DroppedKeeps(s: Sys, fd: nat)
    requires TablesOk(s) && fd < NOFILE && s.ofile[fd] < NFILE && s.ftable[s.ofile[fd]].ref > 1
    ensures TablesOk(Dropped(s, fd))
  {
    var (s', f) := (Dropped(s, fd), s.ofile[fd]);
    hide IsDirFile, Cached, Accounted;
    UpdateCounts(s.ofile, fd, NFILE);
    forall g: nat | g < NFILE
      ensures EntryOk(s.st, s'.ftable[g], s'.held[g], multiset(s'.ofile)[g])
    {
      assert EntryOk(s.st, s.ftable[g], s.held[g], multiset(s.ofile)[g]);
    }
  }

  lemma LoosenedKeeps(s: Sys, fd: nat)
    requires TablesOk(s) && fd < NOFILE && s.ofile[fd] < NFILE && s.ftable[s.ofile[fd]].ref == 1
    ensures TablesOk(Loosened(s, fd))
  {
    var (s', f) := (Loosened(s, fd), s.ofile[fd]);
    hide IsDirFile, Cached;
    LoosenedAccounts(s.st, s.held, f, s.c, s.loose);
    hide Accounted;
    UpdateCounts(s.ofile, fd, NFILE);
    forall g: nat | g < NFILE
      ensures EntryOk(s.st, s'.ftable[g], s'.held[g], multiset(s'.ofile)[g])
    {
      assert EntryOk(s.st, s.ftable[g], s.held[g], multiset(s.ofile)[g]);
    }
  }

  lemma LoosenedAccounts(st: State, held: seq<nat>, f: nat, c: nat, loose: multiset<nat>)
    requires Accounted(st, held, c, loose) && f < |held|
    ensures Accounted(st, held[f := 0], c, loose + multiset{held[f]})
  {
    hide Accounted;
    UpdateCounts(held, f, 0);
    AccountsAgree(st, held, held[f := 0], c, loose, loose + multiset{held[f]});
  }

  /** Reads, writes and seeks move the offset. */
  function Moved(s: Sys, f: nat, off: Uint): Sys
  {
    if f < |s.ftable| then s.(ftable := s.ftable[f := s.ftable[f].(off := off)]) else s
  }

  lemma MovedKeeps(s: Sys, f: nat, off: Uint)
    requires TablesOk(s) && f < NFILE
    ensures TablesOk(Moved(s, f, off))
  {
    var s' := Moved(s, f, off);
    hide IsDirFile, Cached, Accounted;
    forall g: nat | g < NFILE
      ensures EntryOk(s.st, s'.ftable[g], s'.held[g], multiset(s'.ofile)[g])
    {
      assert EntryOk(s.st, s.ftable[g], s.held[g], multiset(s.ofile)[g]);
    }
  }

  /** iput of a loose reference. */
  lemma PutLooseKeeps(s: Sys, st': State, i: nat)
    requires Inv(s.st, 0) && TablesOk(s) && i in s.loose && i != 0 && PutOk(s.st, st', i) && IsDirFile(st'.files, s.c)
    ensures TablesOk(s.(st := st', loose := s.loose - multiset{i}))
  {
    hide Inv, PutOk, Accounted, IsDirFile, Cached;
    var loose' := s.loose - multiset{i};
    CwdNotZero(s);
    PutLooseAccounts(s.st, st', s.held, s.c, s.loose, i);
    forall f: nat | f < NFILE
      ensures EntryOk(st', s.ftable[f], s.held[f], multiset(s.ofile)[f])
    {
      assert EntryOk(s.st, s.ftable[f], s.held[f], multiset(s.ofile)[f]);
      if s.held[f] != 0 {
        assert s.held[f] in multiset(s.held);
        assert s.held[f] in s.st.slots by { CachedHasSlot(s.st, s.held[f]); }
        StillCounted(s, st', loose', i, s.held[f]);
      }
    }
    StillCounted(s, st', loose', i, s.c);
  }

  lemma CachedHasSlot(st: State, j: nat)
    requires Cached(st.itable, st.slots, j)
    ensures j in st.slots
  {
  }

  lemma PutLooseAccounts(st: State, st': State, held: seq<nat>, c: nat, loose: multiset<nat>, i: nat)
    requires Accounted(st, held, c, loose) && i in loose && PutOk(st, st', i)
    ensures Accounted(st', held, c, loose - multiset{i})
  {
    hide Inv, LastPut, BlocksOf, Cached;
    forall j: nat | j != 0
      ensures RefOf(st'.itable, st'.slots, j) == multiset(held)[j] + (loose - multiset{i})[j] + if j == c then 1 else 0
    {
      assert RefOf(st'.itable, st'.slots, j) == RefOf(st.itable, st.slots, j) + if j == i then -1 else 0;
    }
  }

  lemma StillCounted(s: Sys, st': State, loose': multiset<nat>, i: nat, j: nat)
    requires Inv(s.st, 0) && PutOk(s.st, st', i) && Accounted(st', s.held, s.c, loose') && j != 0
    requires (j in multiset(s.held) || j == s.c) && j in s.st.slots
    ensures j in st'.slots && st'.slots[j] == s.st.slots[j]
    ensures Cached(s.st.itable, s.st.slots, j) ==> Cached(st'.itable, st'.slots, j)
  {
    hide LastPut, BlocksOf;
    ReferencedIffPositive(st');
    hide Inv;
    assert RefOf(st'.itable, st'.slots, j) > 0;
  }

  lemma CwdNotZero(s: Sys)
    requires Inv(s.st, 0) && s.c in s.st.slots
    ensures s.c != 0
  {
    hide Inv;
    ReferencedIffPositive(s.st);
  }
}
