/** What create, link and unlink mean for paths: what each path names before and after. */
module NameSpace {
  import opened Layout
  import opened BlockTree
  import opened Invariant
  import opened Directory
  import opened DirectoryOps
  import opened References
  import opened Namei
  import opened Links
  import opened Sysfile

  ghost predicate OneDir(files: seq<File>)
  {
    forall d: nat {:trigger IsDirFile(files, d)} :: IsDirFile(files, d) <==> d == ROOTINO
  }

  /** The names of the root itself are the same. */
  ghost predicate SameDots(m: map<Name, nat>, m': map<Name, nat>)
  {
    forall n {:trigger n in m} {:trigger n in m'} :: (n in m && m[n] == ROOTINO) <==> (n in m' && m'[n] == ROOTINO)
  }

  lemma InRoot(files: seq<File>, n: Name)
    requires OneDir(files)
    ensures LookupIn(files, ROOTINO, n) == if n in RootMap(files) then RootMap(files)[n] else 0
  {
    assert IsDirFile(files, ROOTINO);
    hide DirMap;
  }

  lemma {:induction false} ParentAlike(files: seq<File>, files': seq<File>, els: seq<Name>)
    requires OneDir(files) && OneDir(files') && SameDots(RootMap(files), RootMap(files'))
    ensures ResolveParent(files', ROOTINO, els) == ResolveParent(files, ROOTINO, els)
    ensures ResolveParent(files, ROOTINO, els) == 0 || ResolveParent(files, ROOTINO, els) == ROOTINO
    decreases |els|
  {
    assert IsDirFile(files, ROOTINO) && IsDirFile(files', ROOTINO);
    if |els| > 1 {
      InRoot(files, els[0]);
      InRoot(files', els[0]);
      hide RootMap, LookupIn;
      var (n, n') := (LookupIn(files, ROOTINO, els[0]), LookupIn(files', ROOTINO, els[0]));
      if n == ROOTINO || n' == ROOTINO {
        ParentAlike(files, files', els[1..]);
      } else {
        assert !IsDirFile(files, n) && !IsDirFile(files', n');
      }
    }
  }

  /** A path leads to the root or to what the root binds its last element to. */
  lemma NamedInRoot(files: seq<File>, els: seq<Name>)
    requires OneDir(files)
    ensures els == [] ==> Resolve(files, ROOTINO, els) == ROOTINO
    ensures els != [] ==>
      Resolve(files, ROOTINO, els) == if ResolveParent(files, ROOTINO, els) != 0 && els[|els| - 1] in RootMap(files)
      then RootMap(files)[els[|els| - 1]] else 0
  {
    if els != [] {
      NameiIsLookupInParent(files, ROOTINO, els);
      var p := ResolveParent(files, ROOTINO, els);
      hide Resolve, ResolveParent, LookupIn, RootMap;
      assert IsDirFile(files, p) <==> p == ROOTINO;
      InRoot(files, els[|els| - 1]);
    }
  }

  /** Two paths end in the same name. */
  predicate SameLast(els: seq<Name>, els': seq<Name>) { els != [] && els' != [] && els[|els| - 1] == els'[|els'| - 1] }

  /** A name more: the paths that end in it, and that have a parent, name the inode it is bound
      to; all others name what they named. */
  lemma NameMore(files: seq<File>, files': seq<File>, els: seq<Name>, i: nat, q: seq<Name>)
    requires OneDir(files) && OneDir(files') && els != [] && i != ROOTINO && els[|els| - 1] !in RootMap(files)
    requires RootMap(files') == RootMap(files)[els[|els| - 1] := i]
    ensures Resolve(files', ROOTINO, q) ==
      if SameLast(q, els) && ResolveParent(files, ROOTINO, q) != 0 then i else Resolve(files, ROOTINO, q)
  {
    hide Resolve, ResolveParent, RootMap;
    assert SameDots(RootMap(files), RootMap(files'));
    ParentAlike(files, files', q);
    NamedInRoot(files, q);
    NamedInRoot(files', q);
  }

  /** A name less: the paths that end in it name nothing, all others what they named. */
  lemma NameLess(files: seq<File>, files': seq<File>, els: seq<Name>, q: seq<Name>)
    requires OneDir(files) && OneDir(files') && els != [] && els[|els| - 1] in RootMap(files)
    requires RootMap(files)[els[|els| - 1]] != ROOTINO && RootMap(files') == RootMap(files) - {els[|els| - 1]}
    ensures Resolve(files', ROOTINO, q) == if SameLast(q, els) then 0 else Resolve(files, ROOTINO, q)
  {
    hide Resolve, ResolveParent, RootMap;
    assert SameDots(RootMap(files), RootMap(files'));
    ParentAlike(files, files', q);
    NamedInRoot(files, q);
    NamedInRoot(files', q);
  }

  /** As long as the entries of the root stay the same, so does what paths name. */
  lemma NamesKept(files: seq<File>, files': seq<File>, q: seq<Name>)
    requires OneDir(files) && OneDir(files') && RootMap(files') == RootMap(files)
    ensures Resolve(files', ROOTINO, q) == Resolve(files, ROOTINO, q)
  {
    hide Resolve, ResolveParent, RootMap;
    ParentAlike(files, files', q);
    NamedInRoot(files, q);
    NamedInRoot(files', q);
  }

  // ---------- unlink ----------

  /** unlink succeeds precisely when the path names a file and does not end in a dot.  Then the
      paths that end in its last element name nothing, and all others name what they named;
      the file has a link less, or is gone if that was its last and it is not open; and no other
      file changes but the root. */
  lemma UnlinkGives(st: State, st': State, els: seq<Name>, r: int, q: seq<Name>)
    requires Inv(st, 0) && NsOk(st) && UnlinkOk(st, st', ROOTINO, els, r)
    ensures r == 0 <==> Resolve(st.files, 1, els) > 1 && els[|els| - 1] != [46] && els[|els| - 1] != [46, 46]
    ensures r != 0 ==> r == -1 && st'.files == st.files
    ensures r == 0 ==> Resolve(st'.files, 1, q) == if SameLast(q, els) then 0 else Resolve(st.files, 1, q)
    ensures r == 0 ==>
      var t := Resolve(st.files, 1, els);
      && t < |st.files| == |st'.files| && st.files[t].File? && st.files[t].nlink > 0
      && (forall j :: 0 <= j < |st.files| && j != t && j != 1 ==> st'.files[j] == st.files[j])
      && st'.files[t] == if st.files[t].nlink == 1 && t !in st.slots then Free
                         else st.files[t].(nlink := st.files[t].nlink - 1)
  {
    UnlinkedFiles(st, st', els, r);
    hide Inv, RootMap, Resolve, ResolveParent, NsOk, UnlinkOk;
    assert OneDir(st.files) by { hide LinksOk; OneDirOf(st); }
    NamedInRoot(st.files, els);
    if els != [] && els[|els| - 1] in RootMap(st.files) { BoundTo(st, els[|els| - 1]); }
    if r == 0 {
      assert OneDir(st'.files) by { OneDirOf(st'); }
      NameLess(st.files, st'.files, els, q);
    }
  }

  lemma OneDirOf(st: State)
    requires NsOk(st)
    ensures OneDir(st.files)
  {
    hide RootMap, DirOk;
  }

  /** A name that is no dot is bound to a file with links. */
  lemma BoundTo(st: State, n: Name)
    requires NsOk(st) && n in RootMap(st.files)
    ensures var t := RootMap(st.files)[n];
      && (t == ROOTINO ==> n == DOT || n == DOTDOT) && 0 < t < |st.files| && st.files[t].File?
      && (n != DOT && n != DOTDOT ==> t != ROOTINO && st.files[t].nlink > 0)
  {
    if n != DOT && n != DOTDOT { BoundHasLinks(st.files, n); }
    hide RootMap, DirOk;
  }

  /** What unlink does to the files, and what it leaves of the invariant. */
  lemma UnlinkedFiles(st: State, st': State, els: seq<Name>, r: int)
    requires NsOk(st) && UnlinkOk(st, st', ROOTINO, els, r)
    ensures r == 0 <==> !UnlinkRefuses(st.files, ROOTINO, els)
    ensures r != 0 ==> r == -1 && st'.files == st.files
    ensures r == 0 ==>
      var t := RootMap(st.files)[els[|els| - 1]];
      && NsOk(st') && RootMap(st'.files) == RootMap(st.files) - {els[|els| - 1]}
      && 1 < t < |st.files| == |st'.files| && st.files[t].File?
      && (forall j :: 0 <= j < |st.files| && j != t && j != 1 ==> st'.files[j] == st.files[j])
      && st'.files[t] == if st.files[t].nlink == 1 && t !in st.slots then Free
                         else st.files[t].(nlink := st.files[t].nlink - 1)
  {
    hide Inv, RootMap, ResolveParent, BlocksOf, Tidy, LinksOk, IsDir;
    if r == 0 { BoundTo(st, els[|els| - 1]); }
  }

  // ---------- link and create ----------

  /** link succeeds precisely when the old path names a file, the new one names nothing but has a
      parent, and the root has a place.  Then the new path and the old name the same file, which
      has a link more; all paths that do not end like the new one name what they named; and no
      other file changes but the root. */
  lemma LinkGives(st: State, st': State, els0: seq<Name>, els: seq<Name>, r: int, q: seq<Name>)
    requires Inv(st, 0) && NsOk(st) && LinkCallOk(st, st', Resolve(st.files, 1, els0), 1, els, r)
    ensures r == 0 <==>
      Resolve(st.files, 1, els0) > 1 && Resolve(st.files, 1, els) == 0 && ResolveParent(st.files, 1, els) != 0
      && HasPlace(st, 1)
    ensures r != 0 ==> r == -1 && st'.files == st.files
    ensures r == 0 ==>
      var t := Resolve(st.files, 1, els0);
      && Resolve(st'.files, 1, els) == Resolve(st'.files, 1, els0) == t
      && Resolve(st'.files, 1, q) ==
         (if SameLast(q, els) && ResolveParent(st.files, 1, q) != 0 then t else Resolve(st.files, 1, q))
      && t < |st.files| == |st'.files| && st.files[t].File?
      && (forall j :: 0 <= j < |st.files| && j != t && j != 1 ==> st'.files[j] == st.files[j])
      && st'.files[t] == st.files[t].(nlink := if st.files[t].nlink < 32767 then st.files[t].nlink + 1 else -32768)
  {
    var t := Resolve(st.files, 1, els0);
    assert OneDir(st.files) by { OneDirOf(st); }
    assert IsDirFile(st.files, t) <==> t == ROOTINO;
    LinkedFiles(st, st', t, els, r);
    hide Inv, RootMap, Resolve, ResolveParent, NsOk, LinkCallOk, HasPlace;
    NamedInRoot(st.files, els);
    if els != [] && els[|els| - 1] in RootMap(st.files) { BoundTo(st, els[|els| - 1]); }
    if r == 0 {
      assert OneDir(st'.files);
      NameMore(st.files, st'.files, els, t, q);
      NameMore(st.files, st'.files, els, t, els);
      NameMore(st.files, st'.files, els, t, els0);
      NamedInRoot(st.files, els0);
    }
  }

  lemma LinkedFiles(st: State, st': State, t: nat, els: seq<Name>, r: int)
    requires NsOk(st) && OneDir(st.files) && LinkCallOk(st, st', t, ROOTINO, els, r)
    ensures r == 0 <==> t > 1 && !NameRefused(st.files, ROOTINO, els) && HasPlace(st, ROOTINO)
    ensures r != 0 ==> r == -1 && st'.files == st.files
    ensures r == 0 ==>
      && OneDir(st'.files) && RootMap(st'.files) == RootMap(st.files)[els[|els| - 1] := t]
      && t < |st.files| == |st'.files| && st.files[t].File?
      && (forall j :: 0 <= j < |st.files| && j != t && j != 1 ==> st'.files[j] == st.files[j])
      && st'.files[t] == st.files[t].(nlink := if st.files[t].nlink < 32767 then st.files[t].nlink + 1 else -32768)
  {
    assert IsDirFile(st.files, t) <==> t == ROOTINO;
    assert IsDirFile(st.files, ROOTINO);
    hide Inv, RootMap, ResolveParent, NsOk, Holding, FirstEmptyTaken, Tidy, HasPlace, Extended, BytesOf, Relinked;
    if r == 0 {
      RelinkedFiles(st.files, st'.files, BytesOf(st'.files, ROOTINO), t);
    }
  }

  lemma RelinkedFiles(files: seq<File>, files': seq<File>, bytes: seq<Byte>, t: nat)
    requires OneDir(files) && 1 < t < |files| && files[t].File?
    requires files' == Relinked(files, bytes, t, files[t].(nlink := Bumped(files[t].nlink, 1)))
    ensures OneDir(files') && |files'| == |files|
    ensures forall j :: 0 <= j < |files| && j != t && j != 1 ==> files'[j] == files[j]
    ensures files'[t] == files[t].(nlink := if files[t].nlink < 32767 then files[t].nlink + 1 else -32768)
  {
    assert IsDirFile(files, ROOTINO);
    forall d: nat ensures IsDirFile(files', d) <==> d == ROOTINO { assert IsDirFile(files, d) <==> d == ROOTINO; }
  }

  /** create succeeds precisely when the path names nothing but has a parent, an inode is free and
      the root has a place.  Then the path names the new file, all paths that do not end like it
      name what they named, and no other file changes but the root. */
  lemma CreateGives(st: State, st': State, els: seq<Name>, f: File, ip: nat, i: nat, q: seq<Name>)
    requires Inv(st, 0) && NsOk(st) && CreateOk(st, st', 1, els, f, ip, i) && f.File?
    ensures ip != 50 <==>
      Resolve(st.files, 1, els) == 0 && ResolveParent(st.files, 1, els) != 0
      && (exists j :: 1 <= j < |st.files| && st.files[j] == Free) && HasPlace(st, 1)
    ensures ip == 50 ==> st'.files == st.files
    ensures ip != 50 ==>
      && Resolve(st'.files, 1, els) == i
      && Resolve(st'.files, 1, q) ==
         (if SameLast(q, els) && ResolveParent(st.files, 1, q) != 0 then i else Resolve(st.files, 1, q))
      && 1 < i < |st.files| == |st'.files| && st.files[i] == Free && st'.files[i] == f
      && (forall j :: 0 <= j < |st.files| && j != i && j != 1 ==> st'.files[j] == st.files[j])
  {
    assert OneDir(st.files) by { OneDirOf(st); }
    CreatedFiles(st, st', els, f, ip, i);
    hide Inv, RootMap, Resolve, ResolveParent, NsOk, CreateOk, HasPlace;
    NamedInRoot(st.files, els);
    if els != [] && els[|els| - 1] in RootMap(st.files) { BoundTo(st, els[|els| - 1]); }
    if ip != 50 {
      assert OneDir(st'.files) by { OneDirOf(st'); }
      NameMore(st.files, st'.files, els, i, q);
      NameMore(st.files, st'.files, els, i, els);
    }
  }

  lemma CreatedFiles(st: State, st': State, els: seq<Name>, f: File, ip: nat, i: nat)
    requires NsOk(st) && CreateOk(st, st', ROOTINO, els, f, ip, i) && f.File?
    ensures ip != 50 <==>
      !NameRefused(st.files, ROOTINO, els) && (exists j :: 1 <= j < |st.files| && st.files[j] == Free)
      && HasPlace(st, ROOTINO)
    ensures ip == 50 ==> st'.files == st.files
    ensures ip != 50 ==>
      && NsOk(st') && RootMap(st'.files) == RootMap(st.files)[els[|els| - 1] := i]
      && 1 < i < |st.files| == |st'.files| && st.files[i] == Free && st'.files[i] == f
      && (forall j :: 0 <= j < |st.files| && j != i && j != 1 ==> st'.files[j] == st.files[j])
  {
    hide Inv, RootMap, ResolveParent, BlocksOf, Tidy, LinksOk, IsDir, HasPlace, Extended;
    assert NsOk(st) ==> IsDirFile(st.files, ROOTINO) by { if NsOk(st) { assert OneDir(st.files) by { OneDirOf(st); } } }
  }
}
