/** The buffer cache (xv6fs/src/bio.c): NBUF buffers in a circular list ordered by use,
    over a disk of blocks.  Pointers to buffers are their positions in the array, and HEAD
    stands for the list's head. */
module Cache {
  import opened Layout
  import Invariant
  import References

  const HEAD: nat := NBUF
  const ROOTDEV: nat := 1

  /** struct buf without its links. */
  datatype Buf = Buf(valid: bool, dev: nat, blockno: nat, refcnt: nat, data: Block)

  // ---------- the ring ----------

  /** The buffers along `next` from the head, as a list with the head at both ends. */
  function At(order: seq<nat>, k: nat): nat { if 1 <= k <= |order| then order[k - 1] else HEAD }

  /** `next` and `prev` are inverse, and run through `order`, each buffer of it once. */
  ghost predicate Ring(next: seq<nat>, prev: seq<nat>, order: seq<nat>)
  {
    && |next| == |prev| == NBUF + 1
    && (forall k {:trigger order[k]} :: 0 <= k < |order| ==> order[k] < NBUF)
    && (forall j, k {:trigger order[j], order[k]} :: 0 <= j < k < |order| ==> order[j] != order[k])
    && (forall k: nat {:trigger Joined(next, prev, order, k)} :: k <= |order| ==> Joined(next, prev, order, k))
  }

  predicate Joined(next: seq<nat>, prev: seq<nat>, order: seq<nat>, k: nat)
  {
    var (a, b) := (At(order, k), At(order, k + 1));
    a < |next| && b < |prev| && next[a] == b && prev[b] == a
  }

  /** Linking buffer `b` in behind the head puts it first in the list. */
  lemma PushKeepsRing(next: seq<nat>, prev: seq<nat>, order: seq<nat>, b: nat)
    requires Ring(next, prev, order) && b < NBUF && b !in order
    ensures next[HEAD] <= NBUF
    ensures Ring(next[b := next[HEAD]][HEAD := b], prev[b := HEAD][next[HEAD] := b], [b] + order)
  {
    var order' := [b] + order;
    assert Joined(next, prev, order, 0);
    var (next', prev') := (next[b := next[HEAD]][HEAD := b], prev[b := HEAD][next[HEAD] := b]);
    forall k: nat | k <= |order'| ensures Joined(next', prev', order', k) {
      if k >= 1 {
        assert Joined(next, prev, order, k - 1);
        assert At(order', k + 1) == At(order, k);
        assert k >= 2 ==> At(order', k) == At(order, k - 1);
      }
    }
  }

  /** Joining the two neighbours of the buffer at position `i` takes it off the list. */
  lemma RemoveKeepsRing(next: seq<nat>, prev: seq<nat>, order: seq<nat>, i: nat)
    requires Ring(next, prev, order) && i < |order|
    ensures next[order[i]] <= NBUF && prev[order[i]] <= NBUF
    ensures Ring(next[prev[order[i]] := next[order[i]]], prev[next[order[i]] := prev[order[i]]],
      order[..i] + order[i + 1..])
  {
    var (b, order') := (order[i], order[..i] + order[i + 1..]);
    assert b == At(order, i + 1) && Joined(next, prev, order, i + 1) && Joined(next, prev, order, i);
    var (next', prev') := (next[prev[b] := next[b]], prev[next[b] := prev[b]]);
    forall k: nat | k <= |order'| ensures Joined(next', prev', order', k) {
      assert Joined(next, prev, order, if k <= i then k else k + 1);
      assert At(order', k) == At(order, if k <= i then k else k + 1);
      assert At(order', k + 1) == At(order, if k < i then k + 1 else k + 2);
    }
  }

  // ---------- what clients see ----------

  /** Buffers in use belong to the one device, and no two of them to the same block. */
  ghost predicate Unique(bufs: seq<Buf>, size: nat)
  {
    && |bufs| == NBUF
    && (forall b {:trigger bufs[b]} :: 0 <= b < NBUF ==>
       if bufs[b].dev == 0 then !bufs[b].valid && bufs[b].refcnt == 0
         else bufs[b].dev == ROOTDEV && bufs[b].blockno < size)
    && (forall a, b {:trigger bufs[a], bufs[b]} :: 0 <= a < b < NBUF && bufs[a].dev != 0 && bufs[b].dev != 0 ==>
       bufs[a].blockno != bufs[b].blockno)
  }

  ghost predicate Holds(bufs: seq<Buf>, n: nat) { exists b :: 0 <= b < |bufs| && bufs[b].valid && bufs[b].blockno == n }

  /** `view` is the flat array of blocks the cache stands for: a block is what its buffer
      holds, if it has a valid one, and else what the disk holds. */
  ghost predicate Shows(bufs: seq<Buf>, disk: seq<Block>, view: seq<Block>)
  {
    && |view| == |disk|
    && (forall b {:trigger bufs[b]} :: 0 <= b < |bufs| && bufs[b].valid ==>
       bufs[b].blockno < |disk| && bufs[b].data == view[bufs[b].blockno])
    && (forall n: nat {:trigger view[n]} :: n < |disk| && !Holds(bufs, n) ==> view[n] == disk[n])
  }

  lemma ViewIsUnique(bufs: seq<Buf>, disk: seq<Block>, view: seq<Block>, view': seq<Block>)
    requires Shows(bufs, disk, view) && Shows(bufs, disk, view')
    ensures view == view'
  {
    forall n: nat | n < |disk| ensures view[n] == view'[n] {
      if Holds(bufs, n) { var b :| 0 <= b < |bufs| && bufs[b].valid && bufs[b].blockno == n; }
    }
  }

  /** The disk has what the buffer holds. */
  predicate Clean(disk: seq<Block>, b: Buf) { b.valid && b.blockno < |disk| ==> b.data == disk[b.blockno] }

  /** A buffer given another block while it was not clean takes its changes with it. */
  function Forgets(disk: seq<Block>, view: seq<Block>, b: Buf): seq<Block>
  {
    if b.valid && b.blockno < |disk| && |view| == |disk| then view[b.blockno := disk[b.blockno]] else view
  }

  lemma StillHolds(bufs: seq<Buf>, v: nat, e: Buf, m: nat)
    requires v < |bufs| && Holds(bufs, m) && (bufs[v].valid && bufs[v].blockno == m ==> e.valid && e.blockno == m)
    ensures Holds(bufs[v := e], m)
  {
    var b :| 0 <= b < |bufs| && bufs[b].valid && bufs[b].blockno == m;
    assert bufs[v := e][b].valid && bufs[v := e][b].blockno == m;
  }

  lemma RecycleShows(bufs: seq<Buf>, disk: seq<Block>, view: seq<Block>, v: nat, n: nat)
    requires Unique(bufs, |disk|) && Shows(bufs, disk, view) && v < NBUF
    ensures Shows(bufs[v := Buf(false, ROOTDEV, n, 1, bufs[v].data)], disk, Forgets(disk, view, bufs[v]))
  {
    var (bufs', view') := (bufs[v := Buf(false, ROOTDEV, n, 1, bufs[v].data)], Forgets(disk, view, bufs[v]));
    forall m: nat | m < |disk| ensures Holds(bufs', m) || view'[m] == disk[m] {
      if Holds(bufs, m) && !(bufs[v].valid && bufs[v].blockno == m) { StillHolds(bufs, v, bufs'[v], m); }
    }
    forall b | 0 <= b < NBUF && bufs'[b].valid ensures bufs'[b].data == view'[bufs'[b].blockno] {
      assert bufs[b].dev != 0 && (bufs[v].valid ==> bufs[v].dev != 0);
    }
  }

  /** Giving buffer `v` to another block is invisible just when it was clean. */
  lemma RecycleIsInvisibleIff(bufs: seq<Buf>, disk: seq<Block>, view: seq<Block>, v: nat, n: nat)
    requires Unique(bufs, |disk|) && Shows(bufs, disk, view) && v < NBUF
    ensures Shows(bufs[v := Buf(false, ROOTDEV, n, 1, bufs[v].data)], disk, view) <==> Clean(disk, bufs[v])
  {
    var bufs' := bufs[v := Buf(false, ROOTDEV, n, 1, bufs[v].data)];
    RecycleShows(bufs, disk, view, v, n);
    if Shows(bufs', disk, view) { ViewIsUnique(bufs', disk, view, Forgets(disk, view, bufs[v])); }
    if bufs[v].valid && Clean(disk, bufs[v]) { assert Forgets(disk, view, bufs[v]) == view; }
  }

  /** What clients owe: every buffer nobody holds has been written back. */
  ghost predicate Settled(bufs: seq<Buf>, disk: seq<Block>)
  {
    forall b {:trigger bufs[b]} :: 0 <= b < |bufs| && bufs[b].refcnt == 0 ==> Clean(disk, bufs[b])
  }

  // ---------- pins and ages ----------

  function PinCount(bufs: seq<Buf>): nat { if bufs == [] then 0 else bufs[0].refcnt + PinCount(bufs[1..]) }

  lemma {:induction false} PinsMoved(bufs: seq<Buf>, b: nat, e: Buf)
    requires b < |bufs|
    ensures PinCount(bufs[b := e]) == PinCount(bufs) - bufs[b].refcnt + e.refcnt
  {
    if b == 0 {
      assert bufs[b := e][1..] == bufs[1..];
    } else {
      assert bufs[b := e][1..] == bufs[1..][b - 1 := e];
      PinsMoved(bufs[1..], b - 1, e);
    }
  }

  /** Fewer pins than buffers leave a buffer free. */
  lemma {:induction false} SomeUnpinned(bufs: seq<Buf>)
    requires PinCount(bufs) < |bufs|
    ensures exists b :: 0 <= b < |bufs| && bufs[b].refcnt == 0
  {
    if bufs[0].refcnt != 0 {
      SomeUnpinned(bufs[1..]);
      var b :| 0 <= b < |bufs[1..]| && bufs[1..][b].refcnt == 0;
      assert bufs[b + 1].refcnt == 0;
    }
  }

  /** The list runs from the buffer released last to the one released longest ago. */
  ghost predicate Aged(order: seq<nat>, stamp: seq<nat>, clock: nat)
  {
    && |stamp| == NBUF && (forall b {:trigger stamp[b]} :: 0 <= b < NBUF ==> stamp[b] <= clock)
    && (forall k {:trigger order[k]} :: 0 <= k < |order| ==> order[k] < NBUF)
    && (forall j, k {:trigger order[j], order[k]} :: 0 <= j < k < |order| ==> stamp[order[j]] > stamp[order[k]])
  }

  lemma ReleaseKeepsAged(order: seq<nat>, stamp: seq<nat>, clock: nat, i: nat)
    requires Aged(order, stamp, clock) && i < |order|
    ensures |stamp| == NBUF && order[i] < NBUF
    ensures Aged([order[i]] + (order[..i] + order[i + 1..]), stamp[order[i] := clock + 1], clock + 1)
  {
    var (b, rest) := (order[i], order[..i] + order[i + 1..]);
    var (order', stamp') := ([b] + rest, stamp[b := clock + 1]);
    forall k | 0 <= k < |rest| ensures rest[k] < NBUF && rest[k] != b && rest[k] == order[if k < i then k else k + 1] {
      assert stamp[rest[k]] != stamp[b];
    }
    forall j, k | 0 <= j < k < |order'| ensures stamp'[order'[j]] > stamp'[order'[k]] {
      assert order'[k] == rest[k - 1];
      if j > 0 { assert order'[j] == rest[j - 1]; }
    }
  }

  // ---------- the lists of bufs seen by bget ----------

  lemma AtIsBuffer(next: seq<nat>, prev: seq<nat>, order: seq<nat>, k: nat)
    requires Ring(next, prev, order) && k <= |order| + 1
    ensures At(order, k) <= HEAD && (At(order, k) == HEAD <==> k == 0 || k == |order| + 1)
    ensures k <= |order| ==> next[At(order, k)] == At(order, k + 1)
    ensures k >= 1 ==> prev[At(order, k)] == At(order, k - 1)
  {
    if k <= |order| { assert Joined(next, prev, order, k); }
    if k >= 1 { assert Joined(next, prev, order, k - 1); }
  }

  /** bget's second loop finds nothing, and its first neither: "bget: no buffers". */
  ghost predicate BGetPanics(bufs: seq<Buf>, n: nat)
  {
    forall b {:trigger bufs[b]} :: 0 <= b < |bufs| ==>
      bufs[b].refcnt > 0 && !(bufs[b].dev == ROOTDEV && bufs[b].blockno == n)
  }

  // ---------- a flat array of blocks ----------

  /** What the clients of the cache do, in any order and holding any number of buffers. */
  datatype Op = Read(n: nat) | Change(n: nat, data: Block) | WriteBack(n: nat) | Release(n: nat)

  /** A flat array of blocks, the references clients hold, and the blocks they have changed
      but not written back. */
  datatype Flat = Flat(view: seq<Block>, pins: multiset<nat>, dirty: set<nat>)

  /** The rules of the interface: at most NBUF different blocks are held at a time, only a
      block that is held is touched, and a changed block is written back before the last
      reference to it goes. */
  predicate Allowed(f: Flat, op: Op)
  {
    match op
    case Read(n) => n < |f.view| && (n in f.pins || |References.Distinct(f.pins)| < NBUF)
    case Change(n, _) => n in f.pins
    case WriteBack(n) => n in f.pins
    case Release(n) => n in f.pins && (f.pins[n] == 1 ==> n !in f.dirty)
  }

  function After(f: Flat, op: Op): Flat
  {
    match op
    case Read(n) => f.(pins := f.pins + multiset{n})
    case Change(n, data) => if n < |f.view| then f.(view := f.view[n := data], dirty := f.dirty + {n}) else f
    case WriteBack(n) => f.(dirty := f.dirty - {n})
    case Release(n) => f.(pins := f.pins - multiset{n})
  }

  /** What a read returns. */
  function Output(f: Flat, op: Op): seq<Block> { if op.Read? && op.n < |f.view| then [f.view[op.n]] else [] }

  function AfterAll(f: Flat, ops: seq<Op>): Flat
  {
    if ops == [] then f else After(AfterAll(f, ops[..|ops| - 1]), ops[|ops| - 1])
  }

  function Outputs(f: Flat, ops: seq<Op>): seq<Block>
  {
    if ops == [] then [] else Outputs(f, ops[..|ops| - 1]) + Output(AfterAll(f, ops[..|ops| - 1]), ops[|ops| - 1])
  }

  /** What a run leaves in block `n` and what a read of it gives is `b`: the data of the last change
      of the block, or what was in it at the start. */
  ghost predicate Latest(blocks: seq<Block>, ops: seq<Op>, n: nat, b: Block)
  {
    || (exists j :: 0 <= j < |ops| && ops[j] == Change(n, b) && Unchanged(ops, n, j + 1))
    || (Unchanged(ops, n, 0) && n < |blocks| && b == blocks[n])
  }

  ghost predicate Unchanged(ops: seq<Op>, n: nat, from: nat)
  {
    forall i :: from <= i < |ops| ==> !(ops[i].Change? && ops[i].n == n)
  }

  function Reads(ops: seq<Op>): nat
  {
    if ops == [] then 0 else Reads(ops[..|ops| - 1]) + if ops[|ops| - 1].Read? then 1 else 0
  }

  lemma {:induction false} ViewIsLatest(f: Flat, ops: seq<Op>, n: nat)
    requires n < |f.view|
    ensures |AfterAll(f, ops).view| == |f.view| && Latest(f.view, ops, n, AfterAll(f, ops).view[n])
  {
    if ops != [] {
      var (before, op) := (ops[..|ops| - 1], ops[|ops| - 1]);
      ViewIsLatest(f, before, n);
      LatestStep(f.view, ops, n, AfterAll(f, before).view[n]);
      hide Latest;
    }
  }

  lemma LatestStep(blocks: seq<Block>, ops: seq<Op>, n: nat, b: Block)
    requires ops != [] && Latest(blocks, ops[..|ops| - 1], n, b)
    ensures var op := ops[|ops| - 1]; Latest(blocks, ops, n, if op.Change? && op.n == n then op.data else b)
  {
    var (before, op) := (ops[..|ops| - 1], ops[|ops| - 1]);
    if op.Change? && op.n == n {
      assert ops[|ops| - 1] == Change(n, op.data) && Unchanged(ops, n, |ops|);
    } else if j :| 0 <= j < |before| && before[j] == Change(n, b) && Unchanged(before, n, j + 1) {
      assert ops[j] == Change(n, b) && Unchanged(ops, n, j + 1);
    } else {
      assert Unchanged(ops, n, 0);
    }
  }

  /** A flat array is what each read sees: the k-th operation, if it reads a block, gives the data
      of the last change of that block before it, or what was in it at the start. */
  lemma {:induction false} ReadsGiveLatest(f: Flat, ops: seq<Op>, k: nat)
    requires forall j :: 0 <= j < |ops| && ops[j].Read? ==> ops[j].n < |f.view|
    requires k < |ops| && ops[k].Read?
    ensures |Outputs(f, ops)| == Reads(ops) > Reads(ops[..k])
    ensures Latest(f.view, ops[..k], ops[k].n, Outputs(f, ops)[Reads(ops[..k])])
  {
    hide Latest, Outputs, AfterAll, Reads;
    var (before, op) := (ops[..|ops| - 1], ops[|ops| - 1]);
    OutputsCount(f, ops);
    OutputsCount(f, before);
    OutputsGrow(f, ops);
    if k < |before| {
      ReadsGiveLatest(f, before, k);
      assert before[..k] == ops[..k];
    } else {
      assert ops[..k] == before;
      ViewIsLatest(f, before, op.n);
    }
  }

  lemma OutputsGrow(f: Flat, ops: seq<Op>)
    requires ops != []
    ensures var (before, op) := (ops[..|ops| - 1], ops[|ops| - 1]);
      Outputs(f, ops) == Outputs(f, before) + if op.Read? && op.n < |AfterAll(f, before).view|
        then [AfterAll(f, before).view[op.n]] else []
  {
    hide AfterAll;
  }

  lemma {:induction false} OutputsCount(f: Flat, ops: seq<Op>)
    requires forall j :: 0 <= j < |ops| && ops[j].Read? ==> ops[j].n < |f.view|
    ensures |Outputs(f, ops)| == Reads(ops) && |AfterAll(f, ops).view| == |f.view|
  {
    if ops != [] { OutputsCount(f, ops[..|ops| - 1]); }
  }

  /** Each operation of a run keeps the rules. */
  predicate AllAllowed(f: Flat, ops: seq<Op>)
  {
    forall k {:trigger ops[k]} :: 0 <= k < |ops| ==> Allowed(AfterAll(f, ops[..k]), ops[k])
  }

  ghost predicate Buffered(bufs: seq<Buf>, n: nat, refs: nat)
  {
    exists b :: 0 <= b < |bufs| && bufs[b].dev != 0 && bufs[b].valid && bufs[b].blockno == n && bufs[b].refcnt == refs
  }

  /** Buffer `b` is pinned as often as its block is held, and clean unless that is dirty. */
  ghost predicate BufTracks(disk: seq<Block>, f: Flat, b: Buf)
  {
    b.refcnt == (if b.dev == 0 then 0 else f.pins[b.blockno]) && (b.blockno in f.dirty || Clean(disk, b))
  }

  /** The cache is where the flat machine is. */
  ghost predicate Tracks(bufs: seq<Buf>, disk: seq<Block>, f: Flat)
  {
    && (forall b {:trigger bufs[b]} :: 0 <= b < |bufs| ==> BufTracks(disk, f, bufs[b]))
    && (forall n {:trigger Buffered(bufs, n, f.pins[n])} :: n in f.pins ==> Buffered(bufs, n, f.pins[n]))
    && (forall n :: n in f.dirty ==> n in f.pins)
  }

  lemma TracksIsSettled(bufs: seq<Buf>, disk: seq<Block>, f: Flat)
    requires Unique(bufs, |disk|) && Tracks(bufs, disk, f)
    ensures Settled(bufs, disk)
  {
    forall b | 0 <= b < |bufs| && bufs[b].refcnt == 0 ensures Clean(disk, bufs[b]) {
      assert BufTracks(disk, f, bufs[b]);
      assert bufs[b].blockno in f.dirty ==> bufs[b].blockno in f.pins;
    }
  }

  /** Different buffers hold different blocks. */
  lemma {:induction false} PinnedBlocks(bufs: seq<Buf>, size: nat, f: Flat, disk: seq<Block>, k: nat)
    returns (blocks: set<nat>)
    requires Unique(bufs, size) && Tracks(bufs, disk, f) && k <= NBUF
    requires forall b {:trigger bufs[b]} :: 0 <= b < NBUF ==> bufs[b].refcnt > 0
    ensures |blocks| == k && blocks <= References.Distinct(f.pins)
    ensures forall n :: n in blocks ==> exists b :: 0 <= b < k && bufs[b].blockno == n
  {
    if k == 0 { return {}; }
    blocks := PinnedBlocks(bufs, size, f, disk, k - 1);
    assert bufs[k - 1].blockno !in blocks;
    assert BufTracks(disk, f, bufs[k - 1]);
    blocks := blocks + {bufs[k - 1].blockno};
  }

  /** One buffer for each block held. */
  lemma {:induction false} HeldBlocksFit(bufs: seq<Buf>, disk: seq<Block>, f: Flat, blocks: set<nat>, used: set<nat>)
    requires Tracks(bufs, disk, f) && blocks <= References.Distinct(f.pins)
    requires forall b {:trigger bufs[b]} ::
      0 <= b < |bufs| && bufs[b].dev != 0 && bufs[b].blockno in blocks && bufs[b].refcnt > 0 ==> b in used
    ensures |blocks| <= |used|
  {
    if blocks != {} {
      var n :| n in blocks;
      assert Buffered(bufs, n, f.pins[n]);
      var b :| 0 <= b < |bufs| && bufs[b].dev != 0 && bufs[b].valid && bufs[b].blockno == n
        && bufs[b].refcnt == f.pins[n];
      assert b in used;
      HeldBlocksFitRest(bufs, blocks, used, n, b);
      HeldBlocksFit(bufs, disk, f, blocks - {n}, used - {b});
    }
  }

  lemma HeldBlocksFitRest(bufs: seq<Buf>, blocks: set<nat>, used: set<nat>, n: nat, b: nat)
    requires b < |bufs| && bufs[b].blockno == n
    requires forall b {:trigger bufs[b]} ::
      0 <= b < |bufs| && bufs[b].dev != 0 && bufs[b].blockno in blocks && bufs[b].refcnt > 0 ==> b in used
    ensures forall c {:trigger bufs[c]} ::
      0 <= c < |bufs| && bufs[c].dev != 0 && bufs[c].blockno in blocks - {n} && bufs[c].refcnt > 0 ==>
      c in used - {b}
  {
  }

  /** bget panics just when clients hold NBUF other blocks. */
  lemma BGetPanicsIff(bufs: seq<Buf>, disk: seq<Block>, view: seq<Block>, f: Flat, n: nat)
    requires Unique(bufs, |disk|) && Shows(bufs, disk, view) && Tracks(bufs, disk, f)
    ensures BGetPanics(bufs, n) <==> n !in f.pins && |References.Distinct(f.pins)| >= NBUF
    ensures |References.Distinct(f.pins)| <= NBUF
  {
    Invariant.BelowFacts(NBUF);
    hide Invariant.Below;
    HeldBlocksFit(bufs, disk, f, References.Distinct(f.pins), Invariant.Below(NBUF));
    assert n in f.pins ==> Buffered(bufs, n, f.pins[n]);
    if BGetPanics(bufs, n) {
      var blocks := PinnedBlocks(bufs, |disk|, f, disk, NBUF);
      Invariant.SubsetCard(blocks, References.Distinct(f.pins));
    } else {
      var b :| 0 <= b < |bufs| && !(bufs[b].refcnt > 0 && !(bufs[b].dev == ROOTDEV && bufs[b].blockno == n));
      assert BufTracks(disk, f, bufs[b]);
      if bufs[b].refcnt == 0 {
        HeldBlocksFit(bufs, disk, f, References.Distinct(f.pins), Invariant.Below(NBUF) - {b});
      }
    }
  }

  /** The rules but for the number of blocks held. */
  predicate Mannerly(f: Flat, op: Op) { if op.Read? then op.n < |f.view| else Allowed(f, op) }

  /** Clients that hold fewer references than there are buffers, as the file system does with
      its three, never make bget panic. */
  lemma FewHeldNeverPanic(f: Flat, ops: seq<Op>)
    requires forall k {:trigger ops[k]} :: 0 <= k < |ops| ==>
      Mannerly(AfterAll(f, ops[..k]), ops[k]) && |AfterAll(f, ops[..k]).pins| < NBUF
    ensures AllAllowed(f, ops)
  {
    hide AfterAll;
    forall k | 0 <= k < |ops| ensures Allowed(AfterAll(f, ops[..k]), ops[k]) {
      if ops[k].Read? { FewHeldIsAllowed(AfterAll(f, ops[..k]), ops[k].n); }
    }
  }

  /** Fewer references than buffers leave room for a read. */
  lemma FewHeldIsAllowed(f: Flat, n: nat)
    requires |f.pins| < NBUF && n < |f.view|
    ensures Allowed(f, Read(n))
  {
    References.SetOfMultiset(f.pins);
  }

  // ---------- the operations track the flat machine ----------

  lemma ReadTracks(bufs: seq<Buf>, bufs': seq<Buf>, disk: seq<Block>, view: seq<Block>, view': seq<Block>,
                   stamp: seq<nat>, n: nat, b: nat, f: Flat)
    requires Unique(bufs, |disk|) && Unique(bufs', |disk|) && Shows(bufs, disk, view) && Shows(bufs', disk, view')
      && n < |disk|
    requires ReadIn(bufs, bufs', disk, view, view', stamp, n, b) && Tracks(bufs, disk, f) && f.view == view
    ensures view' == view && bufs'[b].data == view[n] && Tracks(bufs', disk, After(f, Read(n)))
  {
    TracksIsSettled(bufs, disk, f);
    var f' := After(f, Read(n));
    assert n in f.pins ==> Buffered(bufs, n, f.pins[n]);
    assert BufTracks(disk, f, bufs[b]);
    assert bufs[b].refcnt > 0 ==> bufs[b].valid && bufs[b].data == view[n];
    forall x | 0 <= x < |bufs'| ensures BufTracks(disk, f', bufs'[x]) {
      assert BufTracks(disk, f, bufs[x]);
    }
    forall m | m in f'.pins ensures Buffered(bufs', m, f'.pins[m]) {
      if m == n {
        assert bufs'[b].valid && bufs'[b].blockno == n && bufs'[b].refcnt == f'.pins[n];
      } else {
        assert Buffered(bufs, m, f.pins[m]);
        var x :| 0 <= x < |bufs| && bufs[x].dev != 0 && bufs[x].valid && bufs[x].blockno == m
          && bufs[x].refcnt == f.pins[m];
        assert bufs'[x] == bufs[x];
      }
    }
  }

  /** The buffer of a block that is held. */
  lemma HeldBuffer(bufs: seq<Buf>, disk: seq<Block>, f: Flat, n: nat)
    requires Unique(bufs, |disk|) && Tracks(bufs, disk, f) && n in f.pins
    ensures exists b :: 0 <= b < NBUF && bufs[b].dev == ROOTDEV && bufs[b].blockno == n
    ensures forall b {:trigger bufs[b]} :: 0 <= b < NBUF && bufs[b].dev == ROOTDEV && bufs[b].blockno == n ==>
      bufs[b].valid && bufs[b].refcnt == f.pins[n] && n < |disk|
  {
    assert Buffered(bufs, n, f.pins[n]);
  }

  lemma ChangeTracks(bufs: seq<Buf>, disk: seq<Block>, f: Flat, b: nat, data: Block)
    requires Unique(bufs, |disk|) && Tracks(bufs, disk, f) && b < NBUF && bufs[b].dev == ROOTDEV
      && bufs[b].blockno in f.pins
    requires bufs[b].blockno < |f.view|
    ensures Tracks(bufs[b := bufs[b].(data := data)], disk, After(f, Change(bufs[b].blockno, data)))
  {
    var (bufs', f') := (bufs[b := bufs[b].(data := data)], After(f, Change(bufs[b].blockno, data)));
    forall x | 0 <= x < |bufs'| ensures BufTracks(disk, f', bufs'[x]) { assert BufTracks(disk, f, bufs[x]); }
    forall m | m in f'.pins ensures Buffered(bufs', m, f'.pins[m]) {
      assert Buffered(bufs, m, f.pins[m]);
      var x :| 0 <= x < |bufs| && bufs[x].dev != 0 && bufs[x].valid && bufs[x].blockno == m
        && bufs[x].refcnt == f.pins[m];
      assert bufs'[x].valid && bufs'[x].blockno == m && bufs'[x].refcnt == f.pins[m] && bufs'[x].dev != 0;
    }
  }

  lemma WriteTracks(bufs: seq<Buf>, disk: seq<Block>, f: Flat, b: nat)
    requires Unique(bufs, |disk|) && Tracks(bufs, disk, f) && b < NBUF && bufs[b].dev == ROOTDEV
      && bufs[b].blockno < |disk|
    ensures Tracks(bufs, disk[bufs[b].blockno := bufs[b].data], After(f, WriteBack(bufs[b].blockno)))
  {
    var (disk', f') := (disk[bufs[b].blockno := bufs[b].data], After(f, WriteBack(bufs[b].blockno)));
    forall x | 0 <= x < |bufs| ensures BufTracks(disk', f', bufs[x]) { assert BufTracks(disk, f, bufs[x]); }
    forall m | m in f'.pins ensures Buffered(bufs, m, f'.pins[m]) { assert m in f.pins; }
    forall m | m in f'.dirty ensures m in f'.pins { assert m in f.dirty; }
  }

  lemma ReleaseTracks(bufs: seq<Buf>, disk: seq<Block>, f: Flat, b: nat)
    requires Unique(bufs, |disk|) && Tracks(bufs, disk, f) && b < NBUF && bufs[b].dev == ROOTDEV && bufs[b].refcnt > 0
    requires Allowed(f, Release(bufs[b].blockno))
    ensures Tracks(bufs[b := bufs[b].(refcnt := bufs[b].refcnt - 1)], disk, After(f, Release(bufs[b].blockno)))
  {
    var (bufs', f') := (bufs[b := bufs[b].(refcnt := bufs[b].refcnt - 1)], After(f, Release(bufs[b].blockno)));
    assert BufTracks(disk, f, bufs[b]);
    forall x | 0 <= x < |bufs'| ensures BufTracks(disk, f', bufs'[x]) { assert BufTracks(disk, f, bufs[x]); }
    forall m | m in f'.pins ensures Buffered(bufs', m, f'.pins[m]) {
      assert m in f.pins && Buffered(bufs, m, f.pins[m]);
      var x :| 0 <= x < |bufs| && bufs[x].dev != 0 && bufs[x].valid && bufs[x].blockno == m
        && bufs[x].refcnt == f.pins[m];
      assert bufs'[x].valid && bufs'[x].blockno == m && bufs'[x].refcnt == f'.pins[m] && bufs'[x].dev != 0;
    }
    forall m | m in f'.dirty ensures m in f'.pins { assert m in f.dirty; }
  }

  class Cache {
    const next: array<nat>
    const prev: array<nat>
    const bufs: array<Buf>
    const disk: array<Block>
    ghost var order: seq<nat>
    ghost var stamp: seq<nat>
    ghost var clock: nat
    ghost var view: seq<Block>

    ghost predicate Valid()
      reads this, next, prev, bufs, disk
    {
      && next != prev && next.Length == prev.Length == NBUF + 1 && bufs.Length == NBUF
      && Ring(next[..], prev[..], order) && (forall b :: 0 <= b < NBUF ==> b in order)
      && Aged(order, stamp, clock)
      && Unique(bufs[..], disk.Length) && Shows(bufs[..], disk[..], view)
    }

    /** binit, over a disk with the given contents. */
    constructor (blocks: seq<Block>)
      ensures Valid() && fresh(next) && fresh(prev) && fresh(bufs) && fresh(disk)
      ensures view == blocks && disk[..] == blocks && Tracks(bufs[..], disk[..], Flat(blocks, multiset{}, {}))
      ensures forall b :: 0 <= b < NBUF ==> bufs[b].dev == 0
    {
      next, prev := new nat[NBUF + 1](_ => 0), new nat[NBUF + 1](_ => 0);
      bufs := new Buf[NBUF](_ => Buf(false, 0, 0, 0, Zeros()));
      disk := new Block[|blocks|](k requires 0 <= k < |blocks| => blocks[k]);
      order, view, clock := [], blocks, NBUF;
      stamp := BinitStamps();
      new;
      hide Unique, Shows, Settled, Aged, Ring, Joined, BinitStamps, Tracks;
      prev[HEAD], next[HEAD] := HEAD, HEAD;
      EmptyRing(next[..], prev[..]);
      EmptyAged();
      var b := 0;
      while b < NBUF
        invariant b <= NBUF && Ring(next[..], prev[..], order) && (forall x :: x in order <==> 0 <= x < b)
          && Aged(order, stamp, clock)
        invariant stamp == BinitStamps() && clock == NBUF
        modifies next, prev, this`order
      {
        BinitAged(order, stamp, b);
        Push(b);
        b := b + 1;
      }
      EmptyCache(bufs[..], disk[..]);
      StartTracks(bufs[..], disk[..]);
    }

    /** The four assignments that put a buffer at the front. */
    method Push(b: nat)
      requires next != prev && next.Length == prev.Length == NBUF + 1
      requires Ring(next[..], prev[..], order) && b < NBUF && b !in order
      modifies next, prev, this`order
      ensures Ring(next[..], prev[..], order) && order == [b] + old(order)
    {
      hide Ring;
      ghost var (n0: seq<nat>, p0: seq<nat>) := (next[..], prev[..]);
      PushKeepsRing(n0, p0, order, b);
      next[b] := next[HEAD];
      prev[b] := HEAD;
      prev[next[HEAD]] := b;
      next[HEAD] := b;
      order := [b] + order;
      assert next[..] == n0[b := n0[HEAD]][HEAD := b] && prev[..] == p0[b := HEAD][n0[HEAD] := b];
    }

    /** Joins the two neighbours of a buffer. */
    method Take(b: nat, ghost i: nat)
      requires next != prev && next.Length == prev.Length == NBUF + 1
      requires Ring(next[..], prev[..], order) && i < |order| && order[i] == b < NBUF
      modifies next, prev, this`order
      ensures Ring(next[..], prev[..], order) && order == old(order[..i] + order[i + 1..])
    {
      hide Ring;
      ghost var (n0: seq<nat>, p0: seq<nat>) := (next[..], prev[..]);
      RemoveKeepsRing(n0, p0, order, i);
      prev[next[b]] := prev[b];
      next[prev[b]] := next[b];
      order := order[..i] + order[i + 1..];
      assert prev[..] == p0[n0[b] := p0[b]] && next[..] == n0[p0[b] := n0[b]];
    }

    /** The first loop of bget: the buffer of the block, or HEAD. */
    method FindCached(dev: nat, blockno: nat) returns (b: nat)
      requires Valid()
      ensures b <= HEAD && if b < HEAD then bufs[b].dev == dev && bufs[b].blockno == blockno
                           else forall x :: 0 <= x < NBUF ==> !(bufs[x].dev == dev && bufs[x].blockno == blockno)
    {
      ghost var k := 1;
      b := next[HEAD];
      AtIsBuffer(next[..], prev[..], order, 0);
      while b != HEAD
        invariant 1 <= k <= |order| + 1 && b == At(order, k)
        invariant forall j {:trigger order[j]} :: 0 <= j < k - 1 ==>
          !(bufs[order[j]].dev == dev && bufs[order[j]].blockno == blockno)
        decreases |order| + 1 - k
      {
        AtIsBuffer(next[..], prev[..], order, k);
        if bufs[b].dev == dev && bufs[b].blockno == blockno { return; }
        b, k := next[b], k + 1;
      }
      AtIsBuffer(next[..], prev[..], order, k);
      forall x | 0 <= x < NBUF ensures !(bufs[x].dev == dev && bufs[x].blockno == blockno) {
        assert x in order;
        var j :| 0 <= j < |order| && order[j] == x;
      }
    }

    /** The second loop of bget: the unpinned buffer released longest ago, or HEAD. */
    method FindUnpinned() returns (b: nat)
      requires Valid()
      ensures b <= HEAD && if b < HEAD then bufs[b].refcnt == 0 else forall x :: 0 <= x < NBUF ==> bufs[x].refcnt != 0
      ensures b < HEAD ==> |stamp| == NBUF && forall x :: 0 <= x < NBUF && bufs[x].refcnt == 0 ==> stamp[b] <= stamp[x]
    {
      ghost var k := |order|;
      b := prev[HEAD];
      AtIsBuffer(next[..], prev[..], order, |order| + 1);
      while b != HEAD
        invariant 0 <= k <= |order| && b == At(order, k)
        invariant forall j {:trigger order[j]} :: k <= j < |order| ==> bufs[order[j]].refcnt != 0
        decreases k
      {
        AtIsBuffer(next[..], prev[..], order, k);
        if bufs[b].refcnt == 0 {
          forall x | 0 <= x < NBUF && bufs[x].refcnt == 0 ensures stamp[b] <= stamp[x] {
            assert x in order;
            var j :| 0 <= j < |order| && order[j] == x;
            assert order[k - 1] == b;
          }
          return;
        }
        b, k := prev[b], k - 1;
      }
      AtIsBuffer(next[..], prev[..], order, k);
      forall x | 0 <= x < NBUF ensures bufs[x].refcnt != 0 {
        assert x in order;
        var j :| 0 <= j < |order| && order[j] == x;
      }
    }

    /** bget: the buffer of the block, one pin more; a block that is not cached takes the
        unpinned buffer that was released longest ago. */
    method BGet(dev: nat, blockno: nat) returns (b: nat)
      requires Valid() && dev == ROOTDEV && blockno < disk.Length && !BGetPanics(bufs[..], blockno)
      modifies this`view, bufs
      ensures Valid() && Got(old(bufs[..]), bufs[..], disk[..], old(view), view, stamp, blockno, b)
    {
      hide Ring, Shows, Unique;
      ghost var (bufs0, view0) := (bufs[..], view);
      b := FindCached(dev, blockno);
      if b != HEAD {
        HitKeeps(bufs0, disk[..], view, stamp, blockno, b);
        bufs[b] := bufs[b].(refcnt := bufs[b].refcnt + 1);
        assert bufs[..] == bufs0[b := bufs0[b].(refcnt := bufs0[b].refcnt + 1)];
        return;
      }
      b := FindUnpinned();
      MissKeeps(bufs0, disk[..], view, stamp, blockno, b);
      view := Forgets(disk[..], view, bufs[b]);
      bufs[b] := Buf(false, dev, blockno, 1, bufs[b].data);
      assert bufs[..] == bufs0[b := Buf(false, ROOTDEV, blockno, 1, bufs0[b].data)];
    }

    /** bread: the buffer of the block, pinned, and it shows what the flat array holds. */
    method BRead(dev: nat, blockno: nat) returns (b: nat)
      requires Valid() && dev == ROOTDEV && blockno < disk.Length && !BGetPanics(bufs[..], blockno)
      modifies this`view, bufs
      ensures Valid() && ReadIn(old(bufs[..]), bufs[..], disk[..], old(view), view, stamp, blockno, b)
    {
      hide Ring, Shows, Unique, Aged, Got;
      ghost var (bufs0, view0) := (bufs[..], view);
      b := BGet(dev, blockno);
      ghost var bufs1 := bufs[..];
      GotFacts(bufs0, bufs1, disk[..], view0, view, stamp, blockno, b);
      if !bufs[b].valid {
        FillKeeps(bufs0, bufs1, disk[..], view0, view, stamp, blockno, b);
        bufs[b] := bufs[b].(data := disk[bufs[b].blockno]);
        bufs[b] := bufs[b].(valid := true);
        assert bufs[..] == bufs1[b := bufs1[b].(data := disk[blockno], valid := true)];
      } else {
        HitShows(bufs0, bufs1, disk[..], view0, view, stamp, blockno, b);
      }
    }

    /** A client changing the data of a buffer it holds changes the flat array. */
    method Modify(b: nat, data: Block)
      requires Valid() && b < NBUF && bufs[b].refcnt > 0 && bufs[b].valid
      modifies this`view, bufs
      ensures Valid() && bufs[..] == old(bufs[..])[b := old(bufs[b]).(data := data)]
      ensures bufs[b].blockno < |old(view)| && view == old(view)[bufs[b].blockno := data]
      ensures PinCount(bufs[..]) == old(PinCount(bufs[..]))
      ensures old(Settled(bufs[..], disk[..])) ==> Settled(bufs[..], disk[..])
    {
      hide Ring, Aged;
      ghost var bufs0 := bufs[..];
      ModifyKeeps(bufs0, disk[..], view, b, data);
      view := view[bufs[b].blockno := data];
      bufs[b] := bufs[b].(data := data);
      assert bufs[..] == bufs0[b := bufs0[b].(data := data)];
    }

    /** bwrite: the disk catches up, and nothing is seen of it. */
    method BWrite(b: nat)
      requires Valid() && b < NBUF && bufs[b].refcnt > 0 && bufs[b].valid
      modifies disk
      ensures Valid() && bufs[b].blockno < disk.Length
      ensures disk[..] == old(disk[..])[bufs[b].blockno := bufs[b].data] && Clean(disk[..], bufs[b])
      ensures old(Settled(bufs[..], disk[..])) ==> Settled(bufs[..], disk[..])
    {
      hide Ring, Aged;
      ghost var disk0 := disk[..];
      assert bufs[b].blockno < disk.Length;
      WriteKeeps(bufs[..], disk0, view, b);
      disk[bufs[b].blockno] := bufs[b].data;
      assert disk[..] == disk0[bufs[b].blockno := bufs[b].data];
    }

    /** brelse: one pin less; the last one moves the buffer to the front of the list. */
    method BRelse(b: nat)
      requires Valid() && b < NBUF && bufs[b].refcnt > 0
      modifies this`order, this`stamp, this`clock, next, prev, bufs
      ensures Valid() && bufs[..] == old(bufs[..])[b := old(bufs[b]).(refcnt := old(bufs[b].refcnt) - 1)]
      ensures PinCount(bufs[..]) == old(PinCount(bufs[..])) - 1
      ensures if bufs[b].refcnt > 0 then stamp == old(stamp) && clock == old(clock) && order == old(order)
              else |old(stamp)| == NBUF && clock == old(clock) + 1 && stamp == old(stamp)[b := clock] && order != []
                   && order[0] == b
      ensures old(Settled(bufs[..], disk[..])) && (bufs[b].refcnt == 0 ==> Clean(disk[..], bufs[b])) ==>
        Settled(bufs[..], disk[..])
    {
      hide Ring, Shows, Unique, Aged;
      ghost var (bufs0, order0) := (bufs[..], order);
      ReleaseKeeps(bufs0, disk[..], view, b);
      bufs[b] := bufs[b].(refcnt := bufs[b].refcnt - 1);
      assert bufs[..] == bufs0[b := bufs0[b].(refcnt := bufs0[b].refcnt - 1)];
      if bufs[b].refcnt == 0 {
        assert b in order;
        ghost var i :| 0 <= i < |order| && order[i] == b;
        ReleaseKeepsAged(order, stamp, clock, i);
        RemovedOnce(next[..], prev[..], order, i);
        Take(b, i);
        Push(b);
        forall x: nat | x < NBUF ensures x in order { assert x in order0; }
        clock, stamp := clock + 1, stamp[b := clock + 1];
      }
    }

    /** One operation of a client. */
    method Do(op: Op, ghost f: Flat) returns (out: seq<Block>)
      requires Valid() && Tracks(bufs[..], disk[..], f) && view == f.view && Allowed(f, op)
      modifies this, next, prev, bufs, disk
      ensures Valid() && Tracks(bufs[..], disk[..], After(f, op)) && view == After(f, op).view && out == Output(f, op)
    {
      hide Ring, Joined, Shows, Unique, Aged, Settled, PinCount, Tracks;
      ghost var (bufs0, disk0, view0) := (bufs[..], disk[..], view);
      assert |view| == |disk0| by { SameSize(bufs0, disk0, view); }
      out := [];
      if op.Read? {
        BGetPanicsIff(bufs0, disk0, view, f, op.n);
        var b := BRead(ROOTDEV, op.n);
        ReadTracks(bufs0, bufs[..], disk0, view0, view, stamp, op.n, b, f);
        out := [bufs[b].data];
      } else {
        HeldBuffer(bufs0, disk0, f, op.n);
        var b := FindCached(ROOTDEV, op.n);
        match op {
          case Change(n, data) =>
            ChangeTracks(bufs0, disk0, f, b, data);
            Modify(b, data);
          case WriteBack(n) =>
            WriteTracks(bufs0, disk0, f, b);
            BWrite(b);
          case Release(n) =>
            ReleaseTracks(bufs0, disk0, f, b);
            BRelse(b);
        }
      }
    }

    /** Any run in which each operation keeps the rules, whatever the order and however many
        buffers are held at a time, gives what a flat array of blocks gives. */
    method Run(ops: seq<Op>, ghost f: Flat) returns (outs: seq<Block>)
      requires Valid() && Tracks(bufs[..], disk[..], f) && view == f.view && AllAllowed(f, ops)
      modifies this, next, prev, bufs, disk
      ensures Valid() && Tracks(bufs[..], disk[..], AfterAll(f, ops)) && view == AfterAll(f, ops).view
      ensures outs == Outputs(f, ops)
    {
      hide Ring, Joined, Shows, Unique, Aged, Tracks, Allowed, After, Output;
      outs := [];
      var k := 0;
      while k < |ops|
        invariant k <= |ops| && Valid() && Tracks(bufs[..], disk[..], AfterAll(f, ops[..k]))
        invariant view == AfterAll(f, ops[..k]).view && outs == Outputs(f, ops[..k])
      {
        var out := Do(ops[k], AfterAll(f, ops[..k]));
        outs := outs + out;
        assert ops[..k + 1][..k] == ops[..k];
        k := k + 1;
      }
      assert ops[..k] == ops;
    }
  }

  lemma SameSize(bufs: seq<Buf>, disk: seq<Block>, view: seq<Block>)
    requires Shows(bufs, disk, view)
    ensures |view| == |disk|
  {
  }

  /** At the start nothing is held. */
  lemma StartTracks(bufs: seq<Buf>, disk: seq<Block>)
    requires |bufs| == NBUF && forall b :: 0 <= b < NBUF ==> bufs[b] == Buf(false, 0, 0, 0, Zeros())
    ensures Tracks(bufs, disk, Flat(disk, multiset{}, {}))
  {
  }

  /** What bread does: what bget does, and the buffer is filled. */
  ghost predicate ReadIn(bufs: seq<Buf>, bufs': seq<Buf>, disk: seq<Block>, view: seq<Block>, view': seq<Block>,
                         stamp: seq<nat>, n: nat, b: nat)
  {
    && |bufs| == |bufs'| == |stamp| == NBUF && b < NBUF && n < |view'| && PinCount(bufs') == PinCount(bufs) + 1
    && bufs' == bufs[b := bufs'[b]] && bufs'[b] == Buf(true, ROOTDEV, n, bufs[b].refcnt + 1, view'[n])
    && (if bufs[b].dev == ROOTDEV && bufs[b].blockno == n then view' == view
        else bufs[b].refcnt == 0 && view' == Forgets(disk, view, bufs[b])
             && (forall x {:trigger bufs[x]} :: 0 <= x < NBUF ==> !(bufs[x].dev == ROOTDEV && bufs[x].blockno == n))
             && (forall x {:trigger stamp[x]} :: 0 <= x < NBUF && bufs[x].refcnt == 0 ==> stamp[b] <= stamp[x]))
    && (Settled(bufs, disk) ==>
       Settled(bufs', disk) && view' == view && (bufs[b].refcnt == 0 ==> Clean(disk, bufs'[b])))
  }

  lemma GotFacts(bufs: seq<Buf>, bufs': seq<Buf>, disk: seq<Block>, view: seq<Block>, view': seq<Block>,
                 stamp: seq<nat>, n: nat, b: nat)
    requires Got(bufs, bufs', disk, view, view', stamp, n, b)
    ensures |bufs'| == NBUF && b < NBUF && bufs'[b].blockno == n
  {
  }

  lemma Unforgotten(bufs: seq<Buf>, disk: seq<Block>, view: seq<Block>, b: nat)
    requires b < |bufs| && Shows(bufs, disk, view) && Clean(disk, bufs[b])
    ensures Forgets(disk, view, bufs[b]) == view
  {
  }

  lemma FillKeeps(bufs0: seq<Buf>, bufs: seq<Buf>, disk: seq<Block>, view0: seq<Block>, view: seq<Block>,
                  stamp: seq<nat>, n: nat, b: nat)
    requires Got(bufs0, bufs, disk, view0, view, stamp, n, b) && Unique(bufs, |disk|)
    requires Shows(bufs, disk, view) && Shows(bufs0, disk, view0)
    requires n < |disk| && !bufs[b].valid
    ensures var bufs' := bufs[b := bufs[b].(data := disk[n], valid := true)];
      Unique(bufs', |disk|) && Shows(bufs', disk, view) && ReadIn(bufs0, bufs', disk, view0, view, stamp, n, b)
  {
    var e := bufs[b].(data := disk[n], valid := true);
    var bufs' := bufs[b := e];
    PinsMoved(bufs, b, e);
    forall x | 0 <= x < NBUF && bufs[x].valid ensures bufs[x].blockno != n { assert x != b; }
    forall m: nat | m < |disk| ensures Holds(bufs', m) || view[m] == disk[m] {
      if Holds(bufs, m) { StillHolds(bufs, b, e, m); }
    }
    if Settled(bufs0, disk) {
      if bufs0[b].refcnt == 0 { Unforgotten(bufs0, disk, view0, b); }
      forall x | 0 <= x < NBUF && bufs'[x].refcnt == 0 ensures Clean(disk, bufs'[x]) {
        assert x != b && bufs'[x] == bufs0[x];
      }
    }
  }

  lemma HitShows(bufs0: seq<Buf>, bufs: seq<Buf>, disk: seq<Block>, view0: seq<Block>, view: seq<Block>,
                 stamp: seq<nat>, n: nat, b: nat)
    requires Got(bufs0, bufs, disk, view0, view, stamp, n, b) && Shows(bufs, disk, view) && n < |disk| && bufs[b].valid
    ensures ReadIn(bufs0, bufs, disk, view0, view, stamp, n, b)
  {
    if Settled(bufs0, disk) {
      forall x | 0 <= x < NBUF && bufs[x].refcnt == 0 ensures Clean(disk, bufs[x]) {
        assert x != b && bufs[x] == bufs0[x];
      }
    }
  }

  lemma ModifyKeeps(bufs: seq<Buf>, disk: seq<Block>, view: seq<Block>, b: nat, data: Block)
    requires Unique(bufs, |disk|) && Shows(bufs, disk, view) && b < NBUF && bufs[b].valid && bufs[b].refcnt > 0
    ensures bufs[b].blockno < |view| && (Settled(bufs, disk) ==> Settled(bufs[b := bufs[b].(data := data)], disk))
    ensures var bufs' := bufs[b := bufs[b].(data := data)];
      Unique(bufs', |disk|) && Shows(bufs', disk, view[bufs[b].blockno := data]) && PinCount(bufs') == PinCount(bufs)
  {
    var e := bufs[b].(data := data);
    PinsMoved(bufs, b, e);
    forall m: nat | m < |disk| ensures Holds(bufs[b := e], m) || (view[m] == disk[m] && m != bufs[b].blockno) {
      if Holds(bufs, m) { StillHolds(bufs, b, e, m); }
    }
  }

  lemma WriteKeeps(bufs: seq<Buf>, disk: seq<Block>, view: seq<Block>, b: nat)
    requires Unique(bufs, |disk|) && Shows(bufs, disk, view) && b < NBUF && bufs[b].valid && bufs[b].refcnt > 0
    ensures bufs[b].blockno < |disk|
    ensures var disk' := disk[bufs[b].blockno := bufs[b].data];
      Shows(bufs, disk', view) && Clean(disk', bufs[b]) && (Settled(bufs, disk) ==> Settled(bufs, disk'))
  {
    var disk' := disk[bufs[b].blockno := bufs[b].data];
    if Settled(bufs, disk) {
      forall x | 0 <= x < NBUF && bufs[x].refcnt == 0 ensures Clean(disk', bufs[x]) {
        assert Clean(disk, bufs[x]);
      }
    }
  }

  lemma ReleaseKeeps(bufs: seq<Buf>, disk: seq<Block>, view: seq<Block>, b: nat)
    requires Unique(bufs, |disk|) && Shows(bufs, disk, view) && b < NBUF && bufs[b].refcnt > 0
    ensures var bufs' := bufs[b := bufs[b].(refcnt := bufs[b].refcnt - 1)];
      && Unique(bufs', |disk|) && Shows(bufs', disk, view) && PinCount(bufs') == PinCount(bufs) - 1
      && (Settled(bufs, disk) && (bufs'[b].refcnt == 0 ==> Clean(disk, bufs[b])) ==> Settled(bufs', disk))
  {
    var e := bufs[b].(refcnt := bufs[b].refcnt - 1);
    PinsMoved(bufs, b, e);
    forall m: nat | m < |disk| ensures Holds(bufs[b := e], m) || view[m] == disk[m] {
      if Holds(bufs, m) { StillHolds(bufs, b, e, m); }
    }
  }

  /** A buffer is on the list once, so that taking it off leaves it off, and the others on. */
  lemma RemovedOnce(next: seq<nat>, prev: seq<nat>, order: seq<nat>, i: nat)
    requires Ring(next, prev, order) && i < |order|
    ensures order[i] !in order[..i] + order[i + 1..]
    ensures forall x: nat :: x in order ==> x in [order[i]] + (order[..i] + order[i + 1..])
  {
    var rest := order[..i] + order[i + 1..];
    forall x: nat | x in order ensures x in [order[i]] + rest {
      var k :| 0 <= k < |order| && order[k] == x;
      if k < i { assert rest[k] == x; } else if k > i { assert rest[k - 1] == x; }
    }
    forall k | 0 <= k < |rest| ensures rest[k] != order[i] { assert rest[k] == order[if k < i then k else k + 1]; }
  }

  lemma HitKeeps(bufs: seq<Buf>, disk: seq<Block>, view: seq<Block>, stamp: seq<nat>, n: nat, b: nat)
    requires Unique(bufs, |disk|) && Shows(bufs, disk, view) && |stamp| == NBUF
    requires b < NBUF && bufs[b].dev == ROOTDEV && bufs[b].blockno == n
    ensures var bufs' := bufs[b := bufs[b].(refcnt := bufs[b].refcnt + 1)];
      Unique(bufs', |disk|) && Shows(bufs', disk, view) && Got(bufs, bufs', disk, view, view, stamp, n, b)
  {
    var e := bufs[b].(refcnt := bufs[b].refcnt + 1);
    PinsMoved(bufs, b, e);
    forall m: nat | m < |disk| ensures Holds(bufs[b := e], m) || view[m] == disk[m] {
      if Holds(bufs, m) { StillHolds(bufs, b, e, m); }
    }
  }

  lemma MissKeeps(bufs: seq<Buf>, disk: seq<Block>, view: seq<Block>, stamp: seq<nat>, n: nat, b: nat)
    requires Unique(bufs, |disk|) && Shows(bufs, disk, view) && |stamp| == NBUF && b < NBUF && bufs[b].refcnt == 0
      && n < |disk|
    requires forall x :: 0 <= x < NBUF ==> !(bufs[x].dev == ROOTDEV && bufs[x].blockno == n)
    requires forall x :: 0 <= x < NBUF && bufs[x].refcnt == 0 ==> stamp[b] <= stamp[x]
    ensures var bufs' := bufs[b := Buf(false, ROOTDEV, n, 1, bufs[b].data)];
      Unique(bufs', |disk|) && Shows(bufs', disk, Forgets(disk, view, bufs[b]))
        && Got(bufs, bufs', disk, view, Forgets(disk, view, bufs[b]), stamp, n, b)
  {
    RecycleShows(bufs, disk, view, b, n);
    PinsMoved(bufs, b, Buf(false, ROOTDEV, n, 1, bufs[b].data));
  }

  function BinitStamps(): seq<nat> { seq(NBUF, k requires 0 <= k < NBUF => k + 1) }

  lemma EmptyRing(next: seq<nat>, prev: seq<nat>)
    requires |next| == |prev| == NBUF + 1 && next[HEAD] == prev[HEAD] == HEAD
    ensures Ring(next, prev, [])
  {
    assert Joined(next, prev, [], 0);
  }

  lemma EmptyAged()
    ensures Aged([], BinitStamps(), NBUF)
  {
  }

  lemma EmptyCache(bufs: seq<Buf>, disk: seq<Block>)
    requires |bufs| == NBUF && forall b :: 0 <= b < NBUF ==> bufs[b] == Buf(false, 0, 0, 0, Zeros())
    ensures Unique(bufs, |disk|) && Shows(bufs, disk, disk)
  {
  }

  lemma BinitAged(order: seq<nat>, stamp: seq<nat>, b: nat)
    requires stamp == BinitStamps() && b < NBUF && Aged(order, stamp, NBUF) && forall x :: x in order ==> x < b
    ensures Aged([b] + order, stamp, NBUF)
  {
    var order' := [b] + order;
    forall j, k | 0 <= j < k < |order'| ensures stamp[order'[j]] > stamp[order'[k]] {
      assert order'[k] == order[k - 1] && order[k - 1] in order;
      if j > 0 { assert order'[j] == order[j - 1]; }
    }
  }

  /** What bget does: a hit only pins; a miss recycles buffer `b`, which was unpinned and of
      all those released longest ago, and forgets what it held. */
  ghost predicate Got(bufs: seq<Buf>, bufs': seq<Buf>, disk: seq<Block>, view: seq<Block>, view': seq<Block>,
                      stamp: seq<nat>, n: nat, b: nat)
  {
    && |bufs| == |bufs'| == |stamp| == NBUF && b < NBUF && PinCount(bufs') == PinCount(bufs) + 1
    && bufs'[b].dev == ROOTDEV && bufs'[b].blockno == n && bufs'[b].refcnt == bufs[b].refcnt + 1
    && bufs' == bufs[b := bufs'[b]]
    && if bufs[b].dev == ROOTDEV && bufs[b].blockno == n
       then view' == view && bufs'[b] == bufs[b].(refcnt := bufs[b].refcnt + 1)
       else bufs[b].refcnt == 0 && !bufs'[b].valid && view' == Forgets(disk, view, bufs[b])
            && (forall x {:trigger bufs[x]} :: 0 <= x < NBUF ==> !(bufs[x].dev == ROOTDEV && bufs[x].blockno == n))
            && (forall x {:trigger stamp[x]} :: 0 <= x < NBUF && bufs[x].refcnt == 0 ==> stamp[b] <= stamp[x])
  }
}
