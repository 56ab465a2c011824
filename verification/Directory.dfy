/** Directories as bytes: a directory is a file holding 64-byte entries, and its live
    entries form a finite map from names to inode numbers. */
module Directory {
  import opened Layout

  type Name = seq<Byte>

  // ---------- names ----------

  /** The C string in a buffer of `n` bytes: what comes before the first NUL, at most n bytes. */
  function Cut(s: seq<Byte>, n: nat): Name
  {
    if n == 0 || s == [] || s[0] == 0 then [] else [s[0]] + Cut(s[1..], n - 1)
  }

  function CharAt(s: seq<Byte>): Byte { if s == [] then 0 else s[0] }

  function Rest(s: seq<Byte>): seq<Byte> { if s == [] then [] else s[1..] }

  /** Two C strings agree in their first `n` bytes, as strncmp tests it. */
  predicate SameUpTo(s: seq<Byte>, t: seq<Byte>, n: nat)
  {
    n == 0 || (CharAt(s) == CharAt(t) && (CharAt(s) == 0 || SameUpTo(Rest(s), Rest(t), n - 1)))
  }

  /** Two names agree, as namecmp tests it. */
  predicate NameCmp(s: seq<Byte>, t: seq<Byte>) { SameUpTo(s, t, DIRSIZ) }

  /** namecmp compares exactly the C strings cut to DIRSIZ bytes. */
  lemma {:induction false} NameCmpIsEqualNames(s: seq<Byte>, t: seq<Byte>, n: nat)
    ensures SameUpTo(s, t, n) <==> Cut(s, n) == Cut(t, n)
  {
    if n > 0 && CharAt(s) == CharAt(t) != 0 {
      NameCmpIsEqualNames(s[1..], t[1..], n - 1);
      assert Cut(s, n) == [s[0]] + Cut(s[1..], n - 1) && Cut(t, n) == [t[0]] + Cut(t[1..], n - 1);
      assert Cut(s, n)[1..] == Cut(s[1..], n - 1) && Cut(t, n)[1..] == Cut(t[1..], n - 1);
    } else if n > 0 && CharAt(s) != CharAt(t) {
      if CharAt(s) != 0 { assert Cut(s, n)[0] == s[0]; }
      if CharAt(t) != 0 { assert Cut(t, n)[0] == t[0]; }
    }
  }

  lemma {:induction false} CutFacts(s: seq<Byte>, n: nat)
    ensures |Cut(s, n)| <= n && forall k :: 0 <= k < |Cut(s, n)| ==> Cut(s, n)[k] != 0
  {
    if !(n == 0 || s == [] || s[0] == 0) { CutFacts(s[1..], n - 1); }
  }

  /** The C string in a buffer: what comes before the first NUL, or all there is. */
  lemma CutIff(s: seq<Byte>, n: nat, c: Name)
    requires n <= |s|
    ensures Cut(s, n) == c <==>
      |c| <= n && s[..|c|] == c && (forall j :: 0 <= j < |c| ==> c[j] != 0) && (|c| < n ==> s[|c|] == 0)
  {
    CutGives(s, n);
    if |c| <= n && s[..|c|] == c && (forall j :: 0 <= j < |c| ==> c[j] != 0) && (|c| < n ==> s[|c|] == 0) {
      CutIs(s, n, c);
    }
  }

  lemma {:induction false} CutIs(s: seq<Byte>, n: nat, c: Name)
    requires |c| <= n <= |s| && s[..|c|] == c && (forall j :: 0 <= j < |c| ==> c[j] != 0) && (|c| < n ==> s[|c|] == 0)
    ensures Cut(s, n) == c
  {
    if c != [] {
      assert s[0] == s[..|c|][0] && s[1..][..|c| - 1] == c[1..];
      CutIs(s[1..], n - 1, c[1..]);
    }
  }

  lemma {:induction false} CutGives(s: seq<Byte>, n: nat)
    requires n <= |s|
    ensures var c := Cut(s, n);
      |c| <= n && s[..|c|] == c && (forall j :: 0 <= j < |c| ==> c[j] != 0) && (|c| < n ==> s[|c|] == 0)
  {
    if n > 0 && s[0] != 0 {
      CutGives(s[1..], n - 1);
      assert s[..|Cut(s, n)|] == [s[0]] + s[1..][..|Cut(s[1..], n - 1)|];
    }
  }

  /** strncpy(dst, s, n): the C string, padded with NULs to n bytes. */
  function Pad(s: seq<Byte>, n: nat): (r: seq<Byte>)
    ensures |r| == n
  {
    CutFacts(s, n);
    Cut(s, n) + seq(n - |Cut(s, n)|, _ => 0)
  }

  lemma {:induction false} CutOfZeros(c: Name, z: nat, n: nat)
    requires |c| + z == n && forall k :: 0 <= k < |c| ==> c[k] != 0
    ensures Cut(c + seq(z, _ => 0), n) == c
  {
    var s := c + seq(z, _ => 0);
    if c == [] {
      assert n == 0 || s[0] == 0;
    } else {
      assert s[1..] == c[1..] + seq(z, _ => 0);
      CutOfZeros(c[1..], z, n - 1);
    }
  }

  /** A name survives being stored and read back. */
  lemma CutOfPad(s: seq<Byte>, n: nat)
    ensures Cut(Pad(s, n), n) == Cut(s, n)
  {
    CutFacts(s, n);
    CutOfZeros(Cut(s, n), n - |Cut(s, n)|, n);
  }

  // ---------- entries ----------

  datatype Dirent = Dirent(inum: Ushort, name: Name)

  function DecodeDirent(r: Record): Dirent
  {
    Dirent(Le16(r, 0), Cut(r[2..], DIRSIZ))
  }

  /** The bytes of an entry: its inode number, and its name padded with NULs. */
  function EncodeDirent(inum: Ushort, name: seq<Byte>): Record
  {
    [inum % 0x100, inum / 0x100] + Pad(name, DIRSIZ)
  }

  lemma DirentRoundTrip(inum: Ushort, name: seq<Byte>)
    ensures DecodeDirent(EncodeDirent(inum, name)) == Dirent(inum, Cut(name, DIRSIZ))
  {
    assert EncodeDirent(inum, name)[2..] == Pad(name, DIRSIZ);
    CutOfPad(name, DIRSIZ);
    hide Pad, Cut;
  }

  function ZeroRecord(): Record { seq(RECSIZE, _ => 0) }

  lemma ZeroRecordIsEmpty()
    ensures DecodeDirent(ZeroRecord()).inum == 0
  {
  }

  function Count(bytes: seq<Byte>): nat { |bytes| / RECSIZE }

  function EntryAt(bytes: seq<Byte>, k: nat): Dirent
    requires k < Count(bytes)
  {
    DecodeDirent(bytes[RECSIZE * k..RECSIZE * k + RECSIZE])
  }

  /** The k-th entry: two bytes of inode number, and a name of at most 62 bytes that a NUL ends
      if it is shorter. */
  predicate IsEntry(bytes: seq<Byte>, k: nat, n: Name, i: nat)
  {
    && 64 * k + 64 <= |bytes| && |n| <= 62
    && i == bytes[64 * k] as int + 256 * bytes[64 * k + 1] as int
    && bytes[64 * k + 2..64 * k + 2 + |n|] == n && (forall j :: 0 <= j < |n| ==> n[j] != 0)
    && (|n| < 62 ==> bytes[64 * k + 2 + |n|] == 0)
  }

  lemma EntryInBytes(bytes: seq<Byte>, k: nat, n: Name, i: nat)
    requires k < |bytes| / 64
    ensures IsEntry(bytes, k, n, i) <==> EntryAt(bytes, k).inum == i && EntryAt(bytes, k).name == n
  {
    var r := bytes[64 * k..64 * k + 64];
    assert r[0] == bytes[64 * k] && r[1] == bytes[64 * k + 1];
    assert |n| < 62 ==> r[2..][|n|] == bytes[64 * k + 2 + |n|];
    assert |n| <= 62 ==> r[2..][..|n|] == bytes[64 * k + 2..64 * k + 2 + |n|];
    CutIff(r[2..], 62, n);
    hide Cut;
  }

  /** The map of the first `n` entries; entries with inode number 0 are empty. */
  function MapOf(bytes: seq<Byte>, n: nat): map<Name, nat>
    requires n <= Count(bytes)
  {
    if n == 0 then map[]
    else
      var (m, e) := (MapOf(bytes, n - 1), EntryAt(bytes, n - 1));
      if e.inum == 0 then m else m[e.name := e.inum]
  }

  function DirMap(bytes: seq<Byte>): map<Name, nat> { MapOf(bytes, Count(bytes)) }

  /** Whole entries only, and no two live entries with the same name. */
  ghost predicate DirOk(bytes: seq<Byte>)
  {
    && |bytes| % RECSIZE == 0
    && (forall j, k {:trigger EntryAt(bytes, j), EntryAt(bytes, k)} ::
       0 <= j < k < Count(bytes) && EntryAt(bytes, j).inum != 0 && EntryAt(bytes, k).inum != 0 ==>
          EntryAt(bytes, j).name != EntryAt(bytes, k).name)
  }

  /** A name is bound exactly when a live entry carries it, ... */
  lemma {:induction false} BoundByEntry(bytes: seq<Byte>, n: nat, name: Name) returns (k: nat)
    requires n <= Count(bytes) && name in MapOf(bytes, n)
    ensures k < n && EntryAt(bytes, k).inum != 0 && EntryAt(bytes, k).name == name
    ensures MapOf(bytes, n)[name] == EntryAt(bytes, k).inum
  {
    hide EntryAt;
    k := n - 1;
    var e := EntryAt(bytes, k);
    if e.inum == 0 || e.name != name { k := BoundByEntry(bytes, n - 1, name); }
  }

  /** ... and then to that entry's inode number. */
  lemma {:induction false} EntryBinds(bytes: seq<Byte>, n: nat, k: nat)
    requires DirOk(bytes) && k < n <= Count(bytes) && EntryAt(bytes, k).inum != 0
    ensures EntryAt(bytes, k).name in MapOf(bytes, n)
      && MapOf(bytes, n)[EntryAt(bytes, k).name] == EntryAt(bytes, k).inum
  {
    hide EntryAt;
    if k < n - 1 {
      EntryBinds(bytes, n - 1, k);
      var (e, f) := (EntryAt(bytes, k), EntryAt(bytes, n - 1));
    }
  }

  /** `bytes'` is `bytes` with entry `k` replaced by, or one past the end extended with, `e`. */
  ghost predicate Replaced(bytes: seq<Byte>, bytes': seq<Byte>, k: nat, e: Dirent)
  {
    && |bytes| % RECSIZE == 0 && |bytes'| % RECSIZE == 0 && k <= Count(bytes)
    && Count(bytes') == (if k < Count(bytes) then Count(bytes) else Count(bytes) + 1)
    && (forall j {:trigger EntryAt(bytes', j)} :: 0 <= j < Count(bytes') ==>
       EntryAt(bytes', j) == if j == k then e else EntryAt(bytes, j))
  }

  /** Storing a new name in an empty or new entry adds exactly that binding. */
  lemma BindingAdded(bytes: seq<Byte>, bytes': seq<Byte>, k: nat, e: Dirent)
    requires DirOk(bytes) && Replaced(bytes, bytes', k, e) && e.inum != 0 && e.name !in DirMap(bytes)
    requires k < Count(bytes) ==> EntryAt(bytes, k).inum == 0
    ensures DirOk(bytes') && DirMap(bytes') == DirMap(bytes)[e.name := e.inum]
  {
    hide EntryAt;
    forall j: nat | j < Count(bytes) && EntryAt(bytes, j).inum != 0
      ensures EntryAt(bytes, j).name != e.name
    {
      EntryBinds(bytes, Count(bytes), j);
    }
    forall name: Name
      ensures name in DirMap(bytes') <==> name == e.name || name in DirMap(bytes)
      ensures name in DirMap(bytes') ==> DirMap(bytes')[name] == if name == e.name then e.inum else DirMap(bytes)[name]
    {
      if name in DirMap(bytes') {
        var j := BoundByEntry(bytes', Count(bytes'), name);
        if j != k { EntryBinds(bytes, Count(bytes), j); }
      }
      if name in DirMap(bytes) {
        var j := BoundByEntry(bytes, Count(bytes), name);
        assert EntryAt(bytes', j) == EntryAt(bytes, j);
        EntryBinds(bytes', Count(bytes'), j);
      }
      assert EntryAt(bytes', k) == e;
      EntryBinds(bytes', Count(bytes'), k);
    }
  }

  /** Clearing an entry removes exactly its binding. */
  lemma BindingRemoved(bytes: seq<Byte>, bytes': seq<Byte>, k: nat, e: Dirent)
    requires DirOk(bytes) && Replaced(bytes, bytes', k, e) && e.inum == 0
    requires k < Count(bytes) && EntryAt(bytes, k).inum != 0
    ensures DirOk(bytes') && DirMap(bytes') == DirMap(bytes) - {EntryAt(bytes, k).name}
  {
    hide EntryAt;
    var gone := EntryAt(bytes, k).name;
    forall name: Name
      ensures name in DirMap(bytes') <==> name != gone && name in DirMap(bytes)
      ensures name in DirMap(bytes') ==> name in DirMap(bytes) && DirMap(bytes')[name] == DirMap(bytes)[name]
    {
      if name in DirMap(bytes') {
        var j := BoundByEntry(bytes', Count(bytes'), name);
        EntryBinds(bytes, Count(bytes), j);
      }
      if name in DirMap(bytes) && name != gone {
        var j := BoundByEntry(bytes, Count(bytes), name);
        assert EntryAt(bytes', j) == EntryAt(bytes, j);
        EntryBinds(bytes', Count(bytes'), j);
      }
    }
  }
}
