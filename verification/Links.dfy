/** The name space the server keeps: one directory, the root, whose entries other than
    "." and ".." name files, and link counts that count those names. */
module Links {
  import opened Layout
  import opened BlockTree
  import opened Invariant
  import opened Directory
  import opened DirectoryOps
  import opened References
  import opened Namei

  const DOT: Name := [46]
  const DOTDOT: Name := [46, 46]

  function RootMap(files: seq<File>): map<Name, nat> { DirMap(BytesOf(files, ROOTINO)) }

  /** The names of inode `i`. */
  function Names(m: map<Name, nat>, i: nat): set<Name> { set n | n in m && m[n] == i }

  /** The root directory and the link counts, as far as they depend on the files alone:
      the root is the only directory; live entries name inodes that have links; the root
      itself has no names but the dots; and nlink is the number of names of a file. */
  ghost predicate LinksOk(files: seq<File>)
  {
    && (forall d: nat {:trigger IsDirFile(files, d)} :: IsDirFile(files, d) <==> d == ROOTINO)
    && Linked(files, ROOTINO)
    && (forall n {:trigger n in RootMap(files)} :: n in RootMap(files) ==> Linked(files, RootMap(files)[n]))
    && (forall n {:trigger n in RootMap(files)} :: n in RootMap(files) && RootMap(files)[n] == ROOTINO ==>
       n == DOT || n == DOTDOT)
    && (forall i: nat {:trigger files[i]} :: i < |files| && i != ROOTINO && files[i].File? ==>
       files[i].nlink == |Names(RootMap(files), i)|)
  }

  /** ... and the state: the root directory is in order, and a file without links is there
      only because someone has it open. */
  ghost predicate NsOk(st: State)
  {
    && LinksOk(st.files) && IsDir(st, ROOTINO)
    && (forall i: nat {:trigger st.files[i]} :: i < |st.files| && st.files[i].File? && st.files[i].nlink == 0 ==>
       Cached(st.itable, st.slots, i))
  }

  lemma NsGivesTree(st: State)
    requires NsOk(st)
    ensures TreeOk(st)
  {
    hide DirOk, EntryAt;
    var bytes := BytesOf(st.files, ROOTINO);
    forall k | 0 <= k < Count(bytes) && EntryAt(bytes, k).inum != 0
      ensures Linked(st.files, EntryAt(bytes, k).inum)
    {
      EntryBinds(bytes, Count(bytes), k);
      assert EntryAt(bytes, k).name in RootMap(st.files);
    }
  }

  // ---------- link counts under changes of one binding ----------

  lemma NamesAdded(m: map<Name, nat>, n: Name, t: nat, i: nat)
    requires n !in m
    ensures |Names(m[n := t], i)| == |Names(m, i)| + if i == t then 1 else 0
  {
    if i == t {
      assert Names(m[n := t], i) == Names(m, i) + {n};
    } else {
      assert Names(m[n := t], i) == Names(m, i);
    }
  }

  lemma NamesRemoved(m: map<Name, nat>, n: Name, i: nat)
    requires n in m
    ensures |Names(m, i)| == |Names(m - {n}, i)| + if m[n] == i then 1 else 0
  {
    if m[n] == i {
      assert Names(m, i) == Names(m - {n}, i) + {n};
    } else {
      assert Names(m, i) == Names(m - {n}, i);
    }
  }

  /** A bound file has a link: the panic "unlink: nlink < 1" is unreachable. */
  lemma BoundHasLinks(files: seq<File>, n: Name)
    requires LinksOk(files) && n in RootMap(files) && n != DOT && n != DOTDOT
    ensures var t := RootMap(files)[n]; Linked(files, t) && t != ROOTINO && files[t].nlink >= 1 && !IsDirFile(files, t)
  {
    hide RootMap;
    var t := RootMap(files)[n];
    assert n in Names(RootMap(files), t);
    assert !IsDirFile(files, t);
  }

  /** The root with new entries, inode `t` with a new file (or none). */
  function Relinked(files: seq<File>, bytes: seq<Byte>, t: nat, f: File): seq<File>
  {
    if ROOTINO < |files| && files[ROOTINO].File? && t < |files| && t != ROOTINO
    then files[ROOTINO := files[ROOTINO].(bytes := bytes)][t := f] else files
  }

  /** unlink: a name less, a link less; the file may go if that was its last link. */
  lemma UnlinkKeepsLinks(files: seq<File>, bytes: seq<Byte>, n: Name, f: File)
    requires LinksOk(files) && n in RootMap(files) && n != DOT && n != DOTDOT
    requires DirMap(bytes) == RootMap(files) - {n}
    requires var g := files[RootMap(files)[n]]; f == g.(nlink := g.nlink - 1) || (g.nlink == 1 && f == Free)
    ensures LinksOk(Relinked(files, bytes, RootMap(files)[n], f))
  {
    var (m, t) := (RootMap(files), RootMap(files)[n]);
    BoundHasLinks(files, n);
    var files' := Relinked(files, bytes, t, f);
    hide DirMap;
    assert RootMap(files') == m - {n};
    forall i: nat | i < |files'| && i != ROOTINO && files'[i].File?
      ensures files'[i].nlink == |Names(RootMap(files'), i)|
    {
      NamesRemoved(m, n, i);
    }
    forall k | k in RootMap(files')
      ensures Linked(files', RootMap(files')[k])
    {
      NamesRemoved(m, n, t);
      if m[k] == t { assert k in Names(m - {n}, t); }
    }
    hide RootMap;
    forall d: nat ensures IsDirFile(files', d) <==> d == ROOTINO { assert IsDirFile(files, d) <==> d == ROOTINO; }
  }

  /** create: a new name for a new file with one link. */
  lemma CreateKeepsLinks(files: seq<File>, bytes: seq<Byte>, n: Name, t: nat, f: File)
    requires LinksOk(files) && n !in RootMap(files) && 0 < t < |files| && t != ROOTINO && files[t] == Free
    requires DirMap(bytes) == RootMap(files)[n := t] && f.File? && f.nlink == 1 && f.typ != T_DIR
    ensures LinksOk(Relinked(files, bytes, t, f))
  {
    var m := RootMap(files);
    var files' := Relinked(files, bytes, t, f);
    hide DirMap;
    assert RootMap(files') == m[n := t];
    assert Names(m, t) == {};
    forall i: nat | i < |files'| && i != ROOTINO && files'[i].File?
      ensures files'[i].nlink == |Names(RootMap(files'), i)|
    {
      NamesAdded(m, n, t, i);
    }
    hide RootMap;
    forall d: nat ensures IsDirFile(files', d) <==> d == ROOTINO { assert IsDirFile(files, d) <==> d == ROOTINO; }
  }

  lemma BoundCounts(files: seq<File>, t: nat)
    requires LinksOk(files) && Linked(files, t) && t != ROOTINO && t in RootMap(files).Values
    ensures files[t].nlink >= 1 && files[t].nlink == |Names(RootMap(files), t)|
  {
    hide RootMap;
    var k :| k in RootMap(files) && RootMap(files)[k] == t;
    assert k in Names(RootMap(files), t);
  }

  /** A further name, and the count one higher. */
  lemma LinkCounts(files: seq<File>, bytes: seq<Byte>, n: Name, t: nat, f: File)
    requires LinksOk(files) && n !in RootMap(files) && Linked(files, t) && t != ROOTINO
    requires DirMap(bytes) == RootMap(files)[n := t] && 1 <= files[t].nlink < 0x7fff
      && f == files[t].(nlink := files[t].nlink + 1)
    ensures LinksOk(Relinked(files, bytes, t, f))
  {
    hide DirMap;
    var (m, files') := (RootMap(files), Relinked(files, bytes, t, f));
    assert RootMap(files') == m[n := t];
    hide RootMap;
    forall i: nat | i < |files'| && i != ROOTINO && files'[i].File?
      ensures files'[i].nlink == |Names(RootMap(files'), i)|
    {
      NamesAdded(m, n, t, i);
      assert files[i].nlink == |Names(m, i)|;
    }
    forall d: nat ensures IsDirFile(files', d) <==> d == ROOTINO { assert IsDirFile(files, d) <==> d == ROOTINO; }
  }

  /** link: a new name for an old file, whose count grows by one - unless the 16-bit count
      was at its maximum, and then it no longer counts. */
  lemma LinkKeepsLinks(files: seq<File>, bytes: seq<Byte>, n: Name, t: nat)
    requires LinksOk(files) && n !in RootMap(files) && Linked(files, t) && t != ROOTINO
    requires DirMap(bytes) == RootMap(files)[n := t] && (t in RootMap(files).Values)
    ensures LinksOk(Relinked(files, bytes, t, files[t].(nlink := Bumped(files[t].nlink, 1)))) <==>
      files[t].nlink < 0x7fff
  {
    hide DirMap;
    var m := RootMap(files);
    var f := files[t].(nlink := Bumped(files[t].nlink, 1));
    var files' := Relinked(files, bytes, t, f);
    assert RootMap(files') == m[n := t];
    BoundCounts(files, t);
    if files[t].nlink < 0x7fff {
      LinkCounts(files, bytes, n, t, f);
    } else {
      assert files'[t].nlink < 0;
      NamesAdded(m, n, t, t);
    }
  }

  /** The link count changed by `delta`, in 16-bit two's complement. */
  function Bumped(nlink: Short, delta: int): Short { ToShort((nlink + delta) % 0x1_0000) }

  lemma BumpBack(nlink: Short)
    ensures Bumped(Bumped(nlink, 1), -1) == nlink
  {
  }
}
