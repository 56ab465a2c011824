/** The buffer cache under clients that never write a buffer back, which is what
    xv6fs/src/fs.c does, with every log_write commented out: a flat array of blocks as long
    as they touch no more blocks than there are buffers, and not with one block more. */
module Unwritten {
  import opened Layout
  import opened Cache
  import Invariant

  /** The rules of such clients. */
  predicate Permitted(f: Flat, op: Op)
  {
    match op
    case Read(n) => n < |f.view|
    case Change(n, _) => n in f.pins
    case WriteBack(_) => false
    case Release(n) => n in f.pins
  }

  function TouchedBy(op: Op): set<nat> { if op.Read? then {op.n} else {} }

  /** The blocks that are read in a run. */
  function Touched(ops: seq<Op>): set<nat>
  {
    if ops == [] then {} else Touched(ops[..|ops| - 1]) + TouchedBy(ops[|ops| - 1])
  }

  ghost predicate HasBuffer(bufs: seq<Buf>, n: nat)
  {
    exists b :: 0 <= b < |bufs| && bufs[b].dev != 0 && bufs[b].blockno == n
  }

  /** Every block of `touched`, and no other, has a buffer, which is pinned as often as the
      block is held; and buffers never used are older than all that are not pinned. */
  ghost predicate Keeps(bufs: seq<Buf>, stamp: seq<nat>, f: Flat, touched: set<nat>)
  {
    && |bufs| == |stamp| == NBUF
    && (forall b {:trigger bufs[b]} :: 0 <= b < NBUF && bufs[b].dev != 0 ==>
          bufs[b].valid && bufs[b].blockno in touched && bufs[b].refcnt == f.pins[bufs[b].blockno])
    && (forall n {:trigger HasBuffer(bufs, n)} :: n in touched ==> HasBuffer(bufs, n))
    && (forall n :: n in f.pins ==> n in touched)
    && (forall a, b {:trigger stamp[a], stamp[b]} ::
          0 <= a < NBUF && 0 <= b < NBUF && bufs[a].dev == 0 && bufs[b].dev != 0 && bufs[b].refcnt == 0 ==>
          stamp[a] < stamp[b])
  }

  /** Different buffers are of different blocks. */
  lemma {:induction false} UsedBlocks(bufs: seq<Buf>, size: nat, touched: set<nat>, k: nat) returns (blocks: set<nat>)
    requires Unique(bufs, size) && k <= NBUF
    requires forall b {:trigger bufs[b]} :: 0 <= b < k ==> bufs[b].dev != 0 && bufs[b].blockno in touched
    ensures |blocks| == k && blocks <= touched
    ensures forall n :: n in blocks ==> exists b :: 0 <= b < k && bufs[b].blockno == n
  {
    if k == 0 { return {}; }
    blocks := UsedBlocks(bufs, size, touched, k - 1);
    assert bufs[k - 1].blockno !in blocks;
    blocks := blocks + {bufs[k - 1].blockno};
  }

  /** A buffer is left over while fewer blocks have been touched than there are buffers. */
  lemma SomeNeverUsed(bufs: seq<Buf>, size: nat, stamp: seq<nat>, f: Flat, touched: set<nat>)
    requires Unique(bufs, size) && Keeps(bufs, stamp, f, touched) && |touched| < NBUF
    ensures exists b :: 0 <= b < NBUF && bufs[b].dev == 0
  {
    if forall b :: 0 <= b < NBUF ==> bufs[b].dev != 0 {
      var blocks := UsedBlocks(bufs, size, touched, NBUF);
      Invariant.SubsetCard(blocks, touched);
    }
  }

  lemma NoPanic(bufs: seq<Buf>, size: nat, stamp: seq<nat>, f: Flat, touched: set<nat>, n: nat)
    requires Unique(bufs, size) && Keeps(bufs, stamp, f, touched) && |touched + {n}| <= NBUF
    ensures !BGetPanics(bufs, n)
  {
    if n in touched {
      assert HasBuffer(bufs, n);
    } else {
      assert |touched + {n}| == |touched| + 1;
      SomeNeverUsed(bufs, size, stamp, f, touched);
    }
  }

  /** A block that is new takes a buffer that was never used. */
  lemma ReadKeeps(bufs: seq<Buf>, bufs': seq<Buf>, disk: seq<Block>, view: seq<Block>, view': seq<Block>,
                  stamp: seq<nat>, n: nat, b: nat, f: Flat, touched: set<nat>)
    requires Unique(bufs, |disk|) && Shows(bufs, disk, view) && ReadIn(bufs, bufs', disk, view, view', stamp, n, b)
    requires Keeps(bufs, stamp, f, touched) && |touched + {n}| <= NBUF && f.view == view && n < |view|
    ensures view' == view && bufs'[b].data == view[n] && Keeps(bufs', stamp, After(f, Read(n)), touched + {n})
  {
    hide Settled, PinCount, Clean, Holds;
    if bufs[b].dev == ROOTDEV && bufs[b].blockno == n {
      assert view' == view;
    } else {
      assert n !in touched && |touched + {n}| == |touched| + 1 by { assert n in touched ==> HasBuffer(bufs, n); }
      SomeNeverUsed(bufs, |disk|, stamp, f, touched);
      var x :| 0 <= x < NBUF && bufs[x].dev == 0;
      assert stamp[b] <= stamp[x];
      assert bufs[b].dev == 0;
    }
    forall m | m in touched + {n} ensures HasBuffer(bufs', m) { StillBuffered(bufs, bufs', b, n, m, touched); }
  }

  lemma StillBuffered(bufs: seq<Buf>, bufs': seq<Buf>, b: nat, n: nat, m: nat, touched: set<nat>)
    requires b < |bufs| == |bufs'| && bufs' == bufs[b := bufs'[b]] && bufs'[b].dev != 0 && bufs'[b].blockno == n
    requires m in touched ==> HasBuffer(bufs, m)
    requires m in touched || m == n
    requires bufs[b].dev != 0 ==> bufs[b].blockno == n
    ensures HasBuffer(bufs', m)
  {
    if m == n {
      assert bufs'[b].blockno == m;
    } else {
      var x :| 0 <= x < |bufs| && bufs[x].dev != 0 && bufs[x].blockno == m;
      assert bufs'[x] == bufs[x];
    }
  }

  lemma ChangeKeeps(bufs: seq<Buf>, stamp: seq<nat>, f: Flat, touched: set<nat>, b: nat, data: Block)
    requires Keeps(bufs, stamp, f, touched) && b < NBUF && bufs[b].dev != 0
    ensures Keeps(bufs[b := bufs[b].(data := data)], stamp, After(f, Change(bufs[b].blockno, data)), touched)
  {
    var bufs' := bufs[b := bufs[b].(data := data)];
    forall m | m in touched ensures HasBuffer(bufs', m) { StillBuffered(bufs, bufs', b, bufs[b].blockno, m, touched); }
  }

  lemma ReleaseKeeps(bufs: seq<Buf>, size: nat, stamp: seq<nat>, stamp': seq<nat>, f: Flat, touched: set<nat>, b: nat)
    requires Unique(bufs, size) && Keeps(bufs, stamp, f, touched) && b < NBUF && bufs[b].dev != 0 && bufs[b].refcnt > 0
    requires stamp' == stamp || (|stamp'| == NBUF && stamp' == stamp[b := stamp'[b]])
    requires bufs[b].refcnt == 1 ==> |stamp'| == NBUF && forall x :: 0 <= x < NBUF && x != b ==> stamp[x] < stamp'[b]
    ensures var f' := After(f, Release(bufs[b].blockno));
      Keeps(bufs[b := bufs[b].(refcnt := bufs[b].refcnt - 1)], stamp', f', touched)
  {
    var bufs' := bufs[b := bufs[b].(refcnt := bufs[b].refcnt - 1)];
    forall m | m in touched ensures HasBuffer(bufs', m) { StillBuffered(bufs, bufs', b, bufs[b].blockno, m, touched); }
  }

  /** The buffer of a block that is held. */
  lemma PinnedBuffer(bufs: seq<Buf>, size: nat, stamp: seq<nat>, f: Flat, touched: set<nat>, n: nat)
    requires Unique(bufs, size) && Keeps(bufs, stamp, f, touched) && n in f.pins
    ensures exists b :: 0 <= b < NBUF && bufs[b].dev == ROOTDEV && bufs[b].blockno == n
    ensures forall b {:trigger bufs[b]} :: 0 <= b < NBUF && bufs[b].dev == ROOTDEV && bufs[b].blockno == n ==>
      bufs[b].valid && bufs[b].refcnt == f.pins[n]
  {
    assert HasBuffer(bufs, n);
  }

  lemma StampsPast(order: seq<nat>, stamp: seq<nat>, clock: nat)
    requires Aged(order, stamp, clock)
    ensures |stamp| == NBUF && forall b {:trigger stamp[b]} :: 0 <= b < NBUF ==> stamp[b] <= clock
  {
  }

  /** One operation, as long as there are buffers for all blocks touched. */
  method Do(cache: Cache, op: Op, ghost f: Flat, ghost touched: set<nat>) returns (out: seq<Block>)
    requires cache.Valid() && Keeps(cache.bufs[..], cache.stamp, f, touched) && cache.view == f.view
    requires Permitted(f, op) && |touched + TouchedBy(op)| <= NBUF
    modifies cache, cache.next, cache.prev, cache.bufs
    ensures cache.Valid() && Keeps(cache.bufs[..], cache.stamp, After(f, op), touched + TouchedBy(op))
    ensures cache.view == After(f, op).view && out == Output(f, op)
  {
    hide Ring, Joined, Shows, Unique, Aged, Settled, PinCount, Keeps, BGetPanics, Clean, Forgets;
    ghost var (bufs0, disk, view0, stamp0) := (cache.bufs[..], cache.disk[..], cache.view, cache.stamp);
    assert |view0| == |disk| by { SameSize(bufs0, disk, view0); }
    StampsPast(cache.order, cache.stamp, cache.clock);
    out := [];
    if op.Read? {
      NoPanic(bufs0, |disk|, stamp0, f, touched, op.n);
      var b := cache.BRead(ROOTDEV, op.n);
      ReadKeeps(bufs0, cache.bufs[..], disk, view0, cache.view, stamp0, op.n, b, f, touched);
      out := [cache.bufs[b].data];
    } else {
      PinnedBuffer(bufs0, |disk|, stamp0, f, touched, op.n);
      assert touched + TouchedBy(op) == touched;
      var b := cache.FindCached(ROOTDEV, op.n);
      if op.Change? {
        ChangeKeeps(bufs0, stamp0, f, touched, b, op.data);
        cache.Modify(b, op.data);
      } else {
        cache.BRelse(b);
        ReleaseKeeps(bufs0, |disk|, stamp0, cache.stamp, f, touched, b);
      }
    }
  }

  /** A run that touches at most NBUF blocks gives what a flat array of blocks gives. */
  method Run(cache: Cache, ops: seq<Op>, ghost f: Flat) returns (outs: seq<Block>)
    requires cache.Valid() && Keeps(cache.bufs[..], cache.stamp, f, {}) && cache.view == f.view
    requires forall k {:trigger ops[k]} :: 0 <= k < |ops| ==> Permitted(AfterAll(f, ops[..k]), ops[k])
    requires |Touched(ops)| <= NBUF
    modifies cache, cache.next, cache.prev, cache.bufs
    ensures cache.Valid() && Keeps(cache.bufs[..], cache.stamp, AfterAll(f, ops), Touched(ops))
    ensures cache.view == AfterAll(f, ops).view && outs == Outputs(f, ops)
  {
    hide Ring, Joined, Shows, Unique, Aged, Keeps, Permitted, After, Output, TouchedBy;
    outs := [];
    var k := 0;
    while k < |ops|
      invariant k <= |ops| && cache.Valid()
      invariant Keeps(cache.bufs[..], cache.stamp, AfterAll(f, ops[..k]), Touched(ops[..k]))
      invariant cache.view == AfterAll(f, ops[..k]).view && outs == Outputs(f, ops[..k])
    {
      assert ops[..k + 1][..k] == ops[..k];
      TouchedGrows(ops, k + 1);
      var out := Do(cache, ops[k], AfterAll(f, ops[..k]), Touched(ops[..k]));
      outs := outs + out;
      k := k + 1;
    }
    assert ops[..k] == ops;
  }

  lemma {:induction false} TouchedGrows(ops: seq<Op>, k: nat)
    requires k <= |ops|
    ensures Touched(ops[..k]) <= Touched(ops) && |Touched(ops[..k])| <= |Touched(ops)|
    decreases |ops| - k
  {
    hide TouchedBy;
    if k < |ops| {
      TouchedGrows(ops, k + 1);
      assert ops[..k + 1][..k] == ops[..k];
    } else {
      assert ops[..k] == ops;
    }
    Invariant.SubsetCard(Touched(ops[..k]), Touched(ops));
  }

  // ---------- one block more ----------

  /** Nothing is held of a new cache, and nothing has been read. */
  lemma NewKeeps(bufs: seq<Buf>, stamp: seq<nat>, f: Flat)
    requires |bufs| == |stamp| == NBUF && f.pins == multiset{} && forall b :: 0 <= b < NBUF ==> bufs[b].dev == 0
    ensures Keeps(bufs, stamp, f, {})
  {
  }

  /** The blocks 1 to `k` are held, and block 0 has been changed and released. */
  function HeldUpTo(k: nat): multiset<nat> { if k == 0 then multiset{} else HeldUpTo(k - 1) + multiset{k} }

  lemma HeldUpToStart()
    ensures HeldUpTo(0) == multiset{} && Invariant.Below(1) == {0}
  {
    assert Invariant.Below(1) == Invariant.Below(0) + {0};
  }

  lemma HeldUpToMore(k: nat)
    requires k > 0
    ensures HeldUpTo(k - 1) + multiset{k} == HeldUpTo(k) && Invariant.Below(k) + {k} == Invariant.Below(k + 1)
  {
  }

  lemma {:induction false} HeldUpToCounts(k: nat)
    ensures forall n: nat {:trigger HeldUpTo(k)[n]} :: HeldUpTo(k)[n] == if 1 <= n <= k then 1 else 0
  {
    if k > 0 { HeldUpToCounts(k - 1); }
  }

  /** With all buffers used and all but that of block 0 pinned, a further block takes its
      buffer, and the change to block 0 with it. */
  lemma LastReadForgets(bufs: seq<Buf>, bufs': seq<Buf>, disk: seq<Block>, view: seq<Block>, view': seq<Block>,
                        stamp: seq<nat>, b: nat, f: Flat)
    requires Unique(bufs, |disk|) && Shows(bufs, disk, view) && ReadIn(bufs, bufs', disk, view, view', stamp, NBUF, b)
    requires Keeps(bufs, stamp, f, Invariant.Below(NBUF)) && f.pins == HeldUpTo(NBUF - 1) && |disk| > NBUF
    ensures view' == view[0 := disk[0]] && bufs'[b].blockno == NBUF && bufs'[b].refcnt == 1
    ensures forall x {:trigger bufs'[x]} :: 0 <= x < NBUF ==> !(bufs'[x].dev == ROOTDEV && bufs'[x].blockno == 0)
  {
    hide Invariant.Below, HeldUpTo, Settled, PinCount, Keeps, Shows;
    OnlyZeroUnpinned(bufs, |disk|, stamp, f);
    SameSize(bufs, disk, view);
    assert bufs[b].refcnt == 0;
  }

  /** Every buffer is in use, and that of block 0 the only one nobody holds. */
  lemma OnlyZeroUnpinned(bufs: seq<Buf>, size: nat, stamp: seq<nat>, f: Flat)
    requires Unique(bufs, size) && Keeps(bufs, stamp, f, Invariant.Below(NBUF)) && f.pins == HeldUpTo(NBUF - 1)
    ensures forall b {:trigger bufs[b]} :: 0 <= b < NBUF ==>
      bufs[b].dev != 0 && bufs[b].valid && bufs[b].blockno < NBUF && (bufs[b].refcnt == 0 <==> bufs[b].blockno == 0)
    ensures exists b :: 0 <= b < NBUF && bufs[b].refcnt == 0
  {
    hide HeldUpTo, Invariant.Below;
    HeldUpToCounts(NBUF - 1);
    Invariant.BelowFacts(NBUF);
    forall b: nat | b < NBUF ensures bufs[b].dev != 0 {
      AllUsed(bufs, Invariant.Below(NBUF), Invariant.Below(NBUF), b);
    }
    assert HasBuffer(bufs, 0);
    var z :| 0 <= z < NBUF && bufs[z].dev != 0 && bufs[z].blockno == 0;
    forall b | 0 <= b < NBUF ensures bufs[b].refcnt == 0 <==> bufs[b].blockno == 0 {
      assert bufs[b].refcnt == HeldUpTo(NBUF - 1)[bufs[b].blockno];
    }
  }

  /** When as many blocks have buffers as there are buffers, every buffer is in use. */
  lemma AllUsed(bufs: seq<Buf>, blocks: set<nat>, all: set<nat>, b: nat)
    requires forall n :: n in blocks ==> HasBuffer(bufs, n)
    requires forall x: nat :: x < |bufs| ==> x in all
    requires |blocks| == |all| && b < |bufs|
    ensures bufs[b].dev != 0
  {
    hide HasBuffer;
    if bufs[b].dev == 0 { Buffers(bufs, blocks, all - {b}); }
  }

  /** Different blocks have different buffers. */
  lemma {:induction false} Buffers(bufs: seq<Buf>, blocks: set<nat>, used: set<nat>)
    requires forall n :: n in blocks ==> HasBuffer(bufs, n)
    requires forall b {:trigger bufs[b]} ::
      0 <= b < |bufs| && bufs[b].dev != 0 && bufs[b].blockno in blocks ==> b in used
    ensures |blocks| <= |used|
  {
    if blocks != {} {
      var n :| n in blocks;
      var b :| 0 <= b < |bufs| && bufs[b].dev != 0 && bufs[b].blockno == n;
      assert b in used;
      forall m | m in blocks - {n} ensures HasBuffer(bufs, m) { }
      Buffers(bufs, blocks - {n}, used - {b});
    }
  }

  /** Read block 0, change it and release it; read NBUF further blocks and keep all but the
      last; and read block 0 again: the change is lost. */
  method LoseChange(blocks: seq<Block>, data: Block) returns (again: Block)
    requires |blocks| > NBUF
    ensures again == blocks[0]
  {
    hide Ring, Joined, Shows, Unique, Aged, Settled, PinCount, Keeps, Clean, Invariant.Below, HeldUpTo, Tracks;
    var cache := new Cache(blocks);
    StampsPast(cache.order, cache.stamp, cache.clock);
    ghost var f := Flat(blocks, multiset{}, {});
    NewKeeps(cache.bufs[..], cache.stamp, f);
    var out := Do(cache, Read(0), f, {});
    f := After(f, Read(0));
    out := Do(cache, Change(0, data), f, {0});
    f := After(f, Change(0, data));
    out := Do(cache, Release(0), f, {0});
    f := After(f, Release(0));
    HeldUpToStart();
    assert {} + {0} == {0} && {0} + {} == {0} && multiset{} + multiset{0} - multiset{0} == multiset{};
    assert f == Flat(blocks[0 := data], HeldUpTo(0), {0});
    var k := 1;
    while k < NBUF
      invariant 1 <= k <= NBUF && cache.Valid() && f == Flat(blocks[0 := data], HeldUpTo(k - 1), {0})
      invariant fresh(cache) && fresh(cache.next) && fresh(cache.prev) && fresh(cache.bufs) && cache.disk[..] == blocks
      invariant Keeps(cache.bufs[..], cache.stamp, f, Invariant.Below(k)) && cache.view == f.view
    {
      Invariant.BelowFacts(k + 1);
      HeldUpToMore(k);
      out := Do(cache, Read(k), f, Invariant.Below(k));
      f := After(f, Read(k));
      k := k + 1;
    }
    again := ReadTwoMore(cache, blocks, f);
  }

  /** The end of it. */
  method ReadTwoMore(cache: Cache, blocks: seq<Block>, ghost f: Flat) returns (again: Block)
    requires cache.Valid() && |blocks| > NBUF && cache.disk[..] == blocks && cache.view == f.view
    requires Keeps(cache.bufs[..], cache.stamp, f, Invariant.Below(NBUF)) && f.pins == HeldUpTo(NBUF - 1)
    modifies cache, cache.next, cache.prev, cache.bufs
    ensures again == blocks[0]
  {
    hide Ring, Joined, Shows, Unique, Aged, Settled, PinCount, Keeps, Clean, Invariant.Below, HeldUpTo;
    ghost var (bufs0, view0) := (cache.bufs[..], cache.view);
    SomeUnheld(bufs0, |blocks|, cache.stamp, f);
    var b := cache.BRead(ROOTDEV, NBUF);
    LastReadForgets(bufs0, cache.bufs[..], blocks, view0, cache.view, cache.stamp, b, f);
    cache.BRelse(b);
    assert cache.view[0] == blocks[0] by { SameSize(bufs0, blocks, view0); }
    ghost var (bufs1, view1) := (cache.bufs[..], cache.view);
    b := cache.BRead(ROOTDEV, 0);
    NewlyRead(bufs1, cache.bufs[..], blocks, view1, cache.view, cache.stamp, b);
    again := cache.bufs[b].data;
  }

  lemma SomeUnheld(bufs: seq<Buf>, size: nat, stamp: seq<nat>, f: Flat)
    requires Unique(bufs, size) && Keeps(bufs, stamp, f, Invariant.Below(NBUF)) && f.pins == HeldUpTo(NBUF - 1)
    ensures !BGetPanics(bufs, NBUF)
  {
    hide Keeps, HeldUpTo, Invariant.Below;
    OnlyZeroUnpinned(bufs, size, stamp, f);
  }

  /** A block that has no buffer is read from the disk, and shows as it was seen. */
  lemma NewlyRead(bufs: seq<Buf>, bufs': seq<Buf>, disk: seq<Block>, view: seq<Block>, view': seq<Block>,
                  stamp: seq<nat>, b: nat)
    requires Shows(bufs, disk, view) && ReadIn(bufs, bufs', disk, view, view', stamp, 0, b) && |disk| > 0
    requires view[0] == disk[0] && Shows(bufs', disk, view')
    ensures bufs'[b].data == disk[0]
  {
    hide Settled, PinCount, Holds;
  }
}
