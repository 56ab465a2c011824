/** Path names: skipelem (xv6fs/src/fs.c) and the list of elements it walks through. */
module Path {
  import opened Layout
  import opened Directory

  const SLASH: Byte := 47

  /** A C string's bytes, its NUL left out. */
  ghost predicate NoNul(p: seq<Byte>) { forall k :: 0 <= k < |p| ==> p[k] != 0 }

  // ---------- the elements of a path ----------

  function DropSlashes(p: seq<Byte>): (r: seq<Byte>)
    ensures |r| <= |p| && (r == [] || r[0] != SLASH)
  {
    if p == [] || p[0] != SLASH then p else DropSlashes(p[1..])
  }

  function ElementLength(p: seq<Byte>): (n: nat)
    ensures n <= |p| && (n == |p| || p[n] == SLASH)
    ensures forall k :: 0 <= k < n ==> p[k] != SLASH
  {
    if p == [] || p[0] == SLASH then 0 else 1 + ElementLength(p[1..])
  }

  /** At most DIRSIZ bytes of an element count. */
  function Limit(e: seq<Byte>): Name { if |e| >= DIRSIZ then e[..DIRSIZ] else e }

  /** The elements as skipelem peels them off: skip slashes, take up to the next slash. */
  function Elements(p: seq<Byte>): seq<Name>
    decreases |p|
  {
    var q := DropSlashes(p);
    if q == [] then [] else [Limit(q[..ElementLength(q)])] + Elements(q[ElementLength(q)..])
  }

  /** The plain split of a path at every slash, empty pieces included. */
  function Split(p: seq<Byte>): (r: seq<seq<Byte>>)
    ensures |r| > 0
  {
    if p == [] then [[]]
    else
      var r := Split(p[1..]);
      if p[0] == SLASH then [[]] + r else [[p[0]] + r[0]] + r[1..]
  }

  /** The non-empty pieces, each cut to DIRSIZ. */
  function NonEmpty(pieces: seq<seq<Byte>>): seq<Name>
  {
    if pieces == [] then []
    else (if pieces[0] == [] then [] else [Limit(pieces[0])]) + NonEmpty(pieces[1..])
  }

  lemma {:induction false} SplitAfterElement(q: seq<Byte>)
    ensures var n := ElementLength(q);
      Split(q)[0] == q[..n] && Split(q)[1..] == (if n == |q| then [] else Split(q[n + 1..]))
  {
    if q != [] && q[0] == SLASH {
      assert Split(q)[1..] == Split(q[1..]);
    } else if q != [] {
      var (n, r) := (ElementLength(q[1..]), Split(q[1..]));
      SplitAfterElement(q[1..]);
      assert Split(q)[0] == [q[0]] + r[0] && Split(q)[1..] == r[1..];
      assert [q[0]] + q[1..][..n] == q[..n + 1];
      assert n < |q[1..]| ==> q[1..][n + 1..] == q[n + 2..];
    }
  }

  lemma SlashAddsNothing(p: seq<Byte>)
    requires p != [] && p[0] == SLASH
    ensures NonEmpty(Split(p)) == NonEmpty(Split(p[1..]))
  {
    assert Split(p)[1..] == Split(p[1..]);
  }

  lemma {:induction false} DropSlashesKeepsPieces(p: seq<Byte>)
    ensures NonEmpty(Split(p)) == NonEmpty(Split(DropSlashes(p)))
  {
    if p != [] && p[0] == SLASH {
      SlashAddsNothing(p);
      hide Split, NonEmpty;
      DropSlashesKeepsPieces(p[1..]);
    }
  }

  lemma NonEmptyFirst(pieces: seq<seq<Byte>>)
    requires pieces != [] && pieces[0] != []
    ensures NonEmpty(pieces) == [Limit(pieces[0])] + NonEmpty(pieces[1..])
  {
  }

  lemma NothingLeft()
    ensures NonEmpty(Split([])) == [] && NonEmpty([]) == []
  {
    assert Split([])[1..] == [];
  }

  /** The pieces from an element on are the element, and those behind it. */
  lemma FirstPiece(q: seq<Byte>)
    requires q != [] && q[0] != SLASH
    ensures var n := ElementLength(q); n > 0 && NonEmpty(Split(q)) == [Limit(q[..n])] + NonEmpty(Split(q[n..]))
  {
    var n := ElementLength(q);
    hide Split, NonEmpty, Limit;
    SplitAfterElement(q);
    NonEmptyFirst(Split(q));
    NothingLeft();
    if n < |q| {
      SlashAddsNothing(q[n..]);
      assert q[n..][1..] == q[n + 1..];
    } else {
      assert q[n..] == [];
    }
  }

  /** Iterating skipelem yields exactly the non-empty pieces between slashes. */
  lemma {:induction false} ElementsAreThePieces(p: seq<Byte>)
    ensures Elements(p) == NonEmpty(Split(p))
    decreases |p|
  {
    var q := DropSlashes(p);
    DropSlashesKeepsPieces(p);
    if q != [] {
      FirstPiece(q);
      hide Split, NonEmpty;
      ElementsAreThePieces(q[ElementLength(q)..]);
    }
  }

  /** A path made of elements, each behind a slash. */
  function Joined(els: seq<seq<Byte>>): seq<Byte> { if els == [] then [] else [47] + els[0] + Joined(els[1..]) }

  /** Its elements are those it was made of, of which no more than 62 bytes count. */
  lemma {:induction false} ElementsOfJoined(els: seq<seq<Byte>>)
    requires forall k :: 0 <= k < |els| ==> els[k] != [] && 47 !in els[k]
    ensures |Elements(Joined(els))| == |els|
    ensures forall k :: 0 <= k < |els| ==> Elements(Joined(els))[k] == if |els[k]| > 62 then els[k][..62] else els[k]
  {
    if els != [] {
      var (e, rest) := (els[0], Joined(els[1..]));
      ElementsOfJoined(els[1..]);
      assert Joined(els) == [47] + (e + rest);
      LengthOfFirst(e, rest);
      assert Joined(els)[1..] == e + rest && (e + rest)[..|e|] == e && (e + rest)[|e|..] == rest;
      assert DropSlashes(Joined(els)) == e + rest;
      assert Elements(Joined(els)) == [Limit(e)] + Elements(rest);
    }
  }

  lemma {:induction false} LengthOfFirst(e: seq<Byte>, rest: seq<Byte>)
    requires 47 !in e && (rest == [] || rest[0] == 47)
    ensures ElementLength(e + rest) == |e|
  {
    if e == [] {
      assert e + rest == rest;
    } else {
      assert (e + rest)[1..] == e[1..] + rest;
      LengthOfFirst(e[1..], rest);
    }
  }

  // ---------- skipelem ----------

  /** The position behind any slashes. */
  method SkipSlashes(path: seq<Byte>, i: nat) returns (p: nat)
    requires i <= |path|
    ensures i <= p <= |path| && path[p..] == DropSlashes(path[i..])
  {
    p := i;
    while p < |path| && path[p] == SLASH
      invariant i <= p <= |path| && DropSlashes(path[i..]) == DropSlashes(path[p..])
    {
      assert path[p..][1..] == path[p + 1..];
      p := p + 1;
    }
  }

  /** The position of the next slash, or the end. */
  method SkipToSlash(path: seq<Byte>, i: nat) returns (p: nat)
    requires i <= |path|
    ensures i <= p <= |path| && p - i == ElementLength(path[i..])
  {
    p := i;
    while p < |path| && path[p] != SLASH
      invariant i <= p <= |path| && ElementLength(path[i..]) == p - i + ElementLength(path[p..])
    {
      assert path[p..][1..] == path[p + 1..];
      p := p + 1;
    }
  }

  /** skipelem(path + i, name): the index after the element and any slashes behind it, or
      none when only slashes are left; `name` is the DIRSIZ-byte buffer it fills. */
  method SkipElem(path: seq<Byte>, i: nat, name: seq<Byte>) returns (more: bool, next: nat, name': seq<Byte>)
    requires NoNul(path) && i <= |path| && |name| == DIRSIZ
    ensures |name'| == DIRSIZ && next <= |path|
    ensures !more ==> Elements(path[i..]) == [] && name' == name
    ensures more ==> i < next && Elements(path[i..]) == [Cut(name', DIRSIZ)] + Elements(path[next..])
    ensures more ==> (next == |path| <==> Elements(path[next..]) == [])
  {
    hide Elements, Cut, Limit;
    name' := name;
    var s := SkipSlashes(path, i);
    AfterSlashes(path[i..], path[s..]);
    if s == |path| { return false, s, name; }
    var e := SkipToSlash(path, s);
    name' := CopyElem(path, s, e, name);
    next := SkipSlashes(path, e);
    more := true;
    Peeled(path, s, e);
    AfterSlashes(path[e..], path[next..]);
  }

  /** The element goes into the buffer, with a NUL if there is room. */
  method CopyElem(path: seq<Byte>, s: nat, e: nat, name: seq<Byte>) returns (name': seq<Byte>)
    requires NoNul(path) && s <= e <= |path| && |name| == DIRSIZ
    ensures |name'| == DIRSIZ && Cut(name', DIRSIZ) == Limit(path[s..e])
  {
    var len := e - s;
    if len >= DIRSIZ {
      name' := path[s..s + DIRSIZ];
    } else {
      name' := path[s..e] + [0] + name[len + 1..];
    }
    CutOfBuffer(path[s..e], name');
  }

  lemma Peeled(path: seq<Byte>, s: nat, e: nat)
    requires s < |path| && path[s] != SLASH && s <= e <= |path| && e - s == ElementLength(path[s..])
    ensures s < e && Elements(path[s..]) == [Limit(path[s..e])] + Elements(path[e..])
  {
    assert path[s..][..e - s] == path[s..e] && path[s..][e - s..] == path[e..];
    assert DropSlashes(path[s..]) == path[s..];
    hide Limit;
  }

  /** What skipelem leaves in the buffer, read as a C string, is the element cut to DIRSIZ. */
  lemma CutOfBuffer(e: seq<Byte>, buf: seq<Byte>)
    requires NoNul(e) && |buf| == DIRSIZ
    requires if |e| >= DIRSIZ then buf == e[..DIRSIZ] else buf[..|e|] == e && buf[|e|] == 0
    ensures Cut(buf, DIRSIZ) == Limit(e)
  {
    CutIs(buf, DIRSIZ, Limit(e));
  }

  lemma AfterSlashes(p: seq<Byte>, q: seq<Byte>)
    requires q == DropSlashes(p)
    ensures Elements(p) == Elements(q) && (q == [] <==> Elements(q) == [])
  {
  }
}
