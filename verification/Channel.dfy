/** The shared-memory channel between the file system and the ramdisk, polled under a lock:
    disk_rw on the client side (xv6fs/src/main.c) and the serve loop (ramdisk/src/main.c).
    Every load and store of the shared words is a step of its own, and the two sides'
    steps interleave in any order. */
module Channel {
  import opened Layout

  const FSSIZE: nat := 32768              // 32 * 1024 blocks
  const MAX_RAMDISK_SIZE: nat := 33554432 // 16 pages of 2 MB
  const EINVAL: int := 22

  datatype Op = Read(n: nat) | Write(n: nat, data: Block)

  /** buf[0]: zero, which says that nothing is asked for, a request, or anything else. */
  datatype Label = Nothing | DiskRead | DiskWrite | Unknown

  datatype Lock = Free | Client | Server

  /** Where disk_rw stands; Panicked is its panic on an error status. */
  datatype ClientPc =
    | Idle
    | Acquiring(op: Op) | Labelling(op: Op) | Addressing(op: Op) | Filling(op: Op) | Releasing(op: Op)
    | Waiting(op: Op) | Checking(op: Op) | Copying(op: Op) | Finishing(op: Op, out: Block)
    | Panicked

  /** Where the serve loop stands; Faulted is an access outside the ramdisk. */
  datatype ServerPc = Resting | Testing | Serving | Clearing(ret: int) | Replying(ret: int) | Leaving | Faulted

  /** A completed disk_rw; `out` is what a read returned. */
  datatype Done = Done(op: Op, out: Block)

  /** `issued` and `served` count requests, `history` is what disk_rw has completed. */
  datatype Chan = Chan(lock: Lock, tag: Label, arg: int, data: Block, mem: seq<Byte>,
                       client: ClientPc, server: ServerPc, issued: nat, served: nat, history: seq<Done>)

  // ---------- the ramdisk as an array of blocks ----------

  predicate Inside(mem: seq<Byte>, n: int) { 0 <= n && (n + 1) * BSIZE <= |mem| }

  function BlockAt(mem: seq<Byte>, n: int): Block
  {
    if Inside(mem, n) then mem[n * BSIZE..n * BSIZE + BSIZE] else Zeros()
  }

  function WithBlock(mem: seq<Byte>, n: int, data: Block): seq<Byte>
  {
    if Inside(mem, n) then mem[..n * BSIZE] + data + mem[n * BSIZE + BSIZE..] else mem
  }

  lemma BlockOfWithBlock(mem: seq<Byte>, n: int, data: Block, m: int)
    requires Inside(mem, n)
    ensures |WithBlock(mem, n, data)| == |mem|
    ensures BlockAt(WithBlock(mem, n, data), m) == if m == n then data else BlockAt(mem, m)
  {
    var mem' := WithBlock(mem, n, data);
    if Inside(mem, m) {
      assert m < n ==> m * BSIZE + BSIZE <= n * BSIZE;
      assert m > n ==> n * BSIZE + BSIZE <= m * BSIZE;
      forall k: nat | k < BSIZE
        ensures mem'[m * BSIZE..m * BSIZE + BSIZE][k] ==
          if m == n then data[k] else mem[m * BSIZE..m * BSIZE + BSIZE][k]
      {
        assert mem'[m * BSIZE..m * BSIZE + BSIZE][k] == mem'[m * BSIZE + k];
      }
    }
  }

  /** blockno < FSSIZE keeps every access inside the ramdisk. */
  lemma BlocksFit(mem: seq<Byte>, n: int)
    requires |mem| == MAX_RAMDISK_SIZE
    ensures 0 <= n < FSSIZE <==> Inside(mem, n)
  {
  }

  // ---------- the steps ----------

  function LabelOf(op: Op): Label { if op.Read? then DiskRead else DiskWrite }

  /** One step of disk_rw; an idle client starts with `op`.  Call gives the status with the
      lock released, Wait comes back with the lock held; both wait for label zero. */
  function ClientStep(c: Chan, op: Op): Chan
  {
    match c.client
    case Idle => c.(client := Acquiring(op), issued := c.issued + 1)
    case Acquiring(o) => if c.lock == Free then c.(lock := Client, client := Labelling(o)) else c
    case Labelling(o) => c.(tag := LabelOf(o), client := Addressing(o))
    case Addressing(o) => c.(arg := o.n, client := if o.Write? then Filling(o) else Releasing(o))
    case Filling(o) => if o.Write? then c.(data := o.data, client := Releasing(o)) else c
    case Releasing(o) => c.(lock := Free, client := Waiting(o))
    case Waiting(o) =>
      if c.lock != Free || c.tag != Nothing then c
      else if o.Read? then c.(lock := Client, client := Checking(o))
      else if c.arg != 0 then c.(client := Panicked)
      else c.(client := Idle, history := c.history + [Done(o, Zeros())])
    case Checking(o) => if c.arg != 0 then c.(client := Panicked) else c.(client := Copying(o))
    case Copying(o) => c.(client := Finishing(o, c.data))
    case Finishing(o, out) => c.(lock := Free, client := Idle, history := c.history + [Done(o, out)])
    case Panicked => c
  }

  /** One step of the serve loop. */
  function ServerStep(c: Chan): Chan
  {
    match c.server
    case Resting => if c.lock == Free then c.(lock := Server, server := Testing) else c
    case Testing => if c.tag == Nothing then c.(lock := Free, server := Resting) else c.(server := Serving)
    case Serving =>
      if c.tag != DiskRead && c.tag != DiskWrite then c.(server := Clearing(-EINVAL), served := c.served + 1)
      else if !Inside(c.mem, c.arg) then c.(server := Faulted)
      else if c.tag == DiskRead then c.(data := BlockAt(c.mem, c.arg), server := Clearing(0), served := c.served + 1)
      else c.(mem := WithBlock(c.mem, c.arg, c.data), server := Clearing(0), served := c.served + 1)
    case Clearing(ret) => c.(tag := Nothing, server := Replying(ret))
    case Replying(ret) => c.(arg := ret, server := Leaving)
    case Leaving => c.(lock := Free, server := Resting)
    case Faulted => c
  }

  datatype Move = ClientMoves(op: Op) | ServerMoves

  function Run(c: Chan, moves: seq<Move>): Chan
  {
    if moves == [] then c else
      var c1 := Run(c, moves[..|moves| - 1]);
      var m := moves[|moves| - 1];
      if m.ClientMoves? then ClientStep(c1, m.op) else ServerStep(c1)
  }

  /** The channel at rest, its label zero as the shared page is at the start. */
  function Start(mem: seq<Byte>): Chan { Chan(Free, Nothing, 0, Zeros(), mem, Idle, Resting, 0, 0, []) }

  // ---------- what completed operations mean ----------

  /** An atomic array of blocks: its contents after the writes of a history. */
  function After(mem: seq<Byte>, history: seq<Done>): seq<Byte>
  {
    if history == [] then mem else
      var (before, o) := (After(mem, history[..|history| - 1]), history[|history| - 1].op);
      if o.Write? then WithBlock(before, o.n, o.data) else before
  }

  /** Every read returned what the array held. */
  ghost predicate Atomic(mem: seq<Byte>, history: seq<Done>)
  {
    forall k: nat {:trigger history[k]} :: k < |history| && history[k].op.Read? ==>
      history[k].out == BlockAt(After(mem, history[..k]), history[k].op.n)
  }

  /** The last write to block `n`, or what was there at the start. */
  function LastWrite(mem: seq<Byte>, history: seq<Done>, n: nat): Block
  {
    if history == [] then BlockAt(mem, n) else
      var o := history[|history| - 1].op;
      if o.Write? && o.n == n then o.data else LastWrite(mem, history[..|history| - 1], n)
  }

  lemma {:induction false} AfterIsLastWrite(mem: seq<Byte>, history: seq<Done>, n: nat)
    requires |mem| == MAX_RAMDISK_SIZE && forall k: nat {:trigger history[k]} :: k < |history| ==>
      history[k].op.n < FSSIZE
    ensures BlockAt(After(mem, history), n) == LastWrite(mem, history, n) && |After(mem, history)| == |mem|
  {
    if history != [] {
      var (before, last) := (history[..|history| - 1], history[|history| - 1]);
      AfterIsLastWrite(mem, before, n);
      BlocksFit(After(mem, before), last.op.n);
      if last.op.Write? { BlockOfWithBlock(After(mem, before), last.op.n, last.op.data, n); }
    }
  }

  // ---------- the invariant ----------

  predicate ClientHolds(pc: ClientPc)
  {
    pc.Labelling? || pc.Addressing? || pc.Filling? || pc.Releasing? || pc.Checking? || pc.Copying? || pc.Finishing?
  }

  predicate ServerHolds(pc: ServerPc) { pc != Resting && pc != Faulted }

  /** The request is written, and the server has not come to it. */
  predicate Asked(c: Chan, o: Op)
  {
    && c.tag == LabelOf(o) && c.arg == o.n && (o.Write? ==> c.data == o.data) && c.issued == c.served + 1
    && (c.server == Resting || c.server == Testing || c.server == Serving)
  }

  /** The request is served; `before` is the array as it was. */
  predicate Answered(c: Chan, o: Op, before: seq<Byte>)
  {
    && c.issued == c.served && c.mem == (if o.Write? then WithBlock(before, o.n, o.data) else before)
    && (o.Read? ==> c.data == BlockAt(before, o.n))
    && match c.server
       case Clearing(ret) => c.tag == LabelOf(o) && ret == 0
       case Replying(ret) => c.tag == Nothing && ret == 0
       case Leaving => c.tag == Nothing && c.arg == 0
       case Resting => c.tag == Nothing && c.arg == 0
       case Testing => c.tag == Nothing && c.arg == 0
       case _ => false
  }

  predicate OpOf(pc: ClientPc, o: Op) { !pc.Idle? && !pc.Panicked? && pc.op == o }

  /** Where the request of the client stands. */
  predicate Phase(c: Chan, before: seq<Byte>)
  {
    match c.client
    case Idle => c.tag == Nothing && (c.server == Resting || c.server == Testing) && c.issued == c.served
      && c.mem == before
    case Acquiring(o) => c.tag == Nothing && (c.server == Resting || c.server == Testing) && c.issued == c.served + 1
      && c.mem == before
    case Labelling(o) => c.server == Resting && c.issued == c.served + 1 && c.mem == before
    case Addressing(o) => c.server == Resting && c.tag == LabelOf(o) && c.issued == c.served + 1 && c.mem == before
    case Filling(o) => c.server == Resting && c.tag == LabelOf(o) && c.arg == o.n && o.Write?
      && c.issued == c.served + 1 && c.mem == before
    case Releasing(o) => c.server == Resting && Asked(c, o) && c.mem == before
    case Waiting(o) => (Asked(c, o) && c.mem == before) || Answered(c, o, before)
    case Checking(o) => c.server == Resting && o.Read? && Answered(c, o, before)
    case Copying(o) => c.server == Resting && o.Read? && Answered(c, o, before)
    case Finishing(o, out) => c.server == Resting && o.Read? && Answered(c, o, before) && out == BlockAt(before, o.n)
    case Panicked => false
  }

  /** What holds in every reachable state of a channel whose ramdisk started as `mem`. */
  ghost predicate Inv(c: Chan, mem: seq<Byte>)
  {
    && |c.mem| == |mem| == MAX_RAMDISK_SIZE
    && (c.lock == Client <==> ClientHolds(c.client)) && (c.lock == Server <==> ServerHolds(c.server))
    && (forall o :: OpOf(c.client, o) ==> o.n < FSSIZE)
    && (forall k: nat {:trigger c.history[k]} :: k < |c.history| ==> c.history[k].op.n < FSSIZE)
    && |c.history| == c.issued - (if c.client == Idle then 0 else 1)
    && Phase(c, After(mem, c.history)) && Atomic(mem, c.history)
  }

  lemma ServerKeepsInv(c: Chan, mem: seq<Byte>)
    requires Inv(c, mem)
    ensures Inv(ServerStep(c), mem)
  {
    hide Atomic, After, BlockAt, WithBlock;
    if c.server == Serving && c.client.Waiting? {
      assert OpOf(c.client, c.client.op);
      BlocksFit(c.mem, c.arg);
      if c.tag == DiskWrite { BlockOfWithBlock(c.mem, c.arg, c.data, 0); }
    }
  }

  lemma CompletedKeepsAtomic(mem: seq<Byte>, history: seq<Done>, d: Done)
    requires Atomic(mem, history) && (d.op.Read? ==> d.out == BlockAt(After(mem, history), d.op.n))
    ensures Atomic(mem, history + [d])
    ensures After(mem, history + [d]) ==
      if d.op.Write? then WithBlock(After(mem, history), d.op.n, d.op.data) else After(mem, history)
  {
    var h := history + [d];
    assert h[..|h| - 1] == history;
    hide BlockAt;
    forall k: nat | k < |h| && h[k].op.Read? ensures h[k].out == BlockAt(After(mem, h[..k]), h[k].op.n) {
      assert h[..k] == history[..k];
    }
  }

  /** The client has not sent its request. */
  predicate Asking(pc: ClientPc)
  {
    pc.Idle? || pc.Acquiring? || pc.Labelling? || pc.Addressing? || pc.Filling? || pc.Releasing?
  }

  lemma AskingKeepsInv(c: Chan, op: Op, mem: seq<Byte>)
    requires Inv(c, mem) && op.n < FSSIZE && Asking(c.client)
    ensures Inv(ClientStep(c, op), mem)
  {
    hide BlockAt, WithBlock, Atomic, After, Answered;
    if !c.client.Idle? { assert OpOf(c.client, c.client.op); }
  }

  lemma AwaitingKeepsInv(c: Chan, op: Op, mem: seq<Byte>)
    requires Inv(c, mem) && !Asking(c.client) && ClientStep(c, op).history == c.history
    ensures Inv(ClientStep(c, op), mem)
  {
    hide BlockAt, WithBlock, Atomic, After;
    if !c.client.Panicked? { assert OpOf(c.client, c.client.op); }
  }

  lemma ClientKeepsInv(c: Chan, op: Op, mem: seq<Byte>)
    requires Inv(c, mem) && op.n < FSSIZE
    ensures Inv(ClientStep(c, op), mem)
  {
    hide ClientStep, Inv;
    if ClientStep(c, op).history != c.history {
      CompletingKeepsInv(c, op, mem);
    } else if Asking(c.client) {
      AskingKeepsInv(c, op, mem);
    } else {
      AwaitingKeepsInv(c, op, mem);
    }
  }

  lemma CompletingKeepsInv(c: Chan, op: Op, mem: seq<Byte>)
    requires Inv(c, mem) && ClientStep(c, op).history != c.history
    ensures Inv(ClientStep(c, op), mem)
  {
    hide BlockAt, WithBlock, Atomic, After;
    assert OpOf(c.client, c.client.op);
    CompletedKeepsAtomic(mem, c.history, Done(c.client.op, if c.client.Finishing? then c.client.out else Zeros()));
  }

  /** In every interleaving the invariant holds. */
  lemma {:induction false} RunKeepsInv(mem: seq<Byte>, moves: seq<Move>)
    requires |mem| == MAX_RAMDISK_SIZE && forall k: nat {:trigger moves[k]} :: k < |moves| && moves[k].ClientMoves? ==>
      moves[k].op.n < FSSIZE
    ensures Inv(Run(Start(mem), moves), mem)
  {
    hide Inv;
    if moves == [] {
      StartInv(mem);
    } else {
      var (before, m) := (moves[..|moves| - 1], moves[|moves| - 1]);
      RunKeepsInv(mem, before);
      if m.ClientMoves? {
        ClientKeepsInv(Run(Start(mem), before), m.op, mem);
      } else {
        ServerKeepsInv(Run(Start(mem), before), mem);
      }
    }
  }

  lemma StartInv(mem: seq<Byte>)
    requires |mem| == MAX_RAMDISK_SIZE
    ensures Inv(Start(mem), mem)
  {
  }

  /** What a client sees: at most one side is in its critical section; disk_rw does not
      panic and no access leaves the ramdisk; each request is served once, after it was
      issued and before disk_rw returns; and a read returns the last completed write. */
  lemma ChannelIsAtomicArray(mem: seq<Byte>, moves: seq<Move>)
    requires |mem| == MAX_RAMDISK_SIZE && forall k: nat {:trigger moves[k]} :: k < |moves| && moves[k].ClientMoves? ==>
      moves[k].op.n < FSSIZE
    ensures var c := Run(Start(mem), moves);
      && !(ClientHolds(c.client) && ServerHolds(c.server)) && c.client != Panicked && c.server != Faulted
      && |c.history| <= c.served <= c.issued <= |c.history| + 1
      && (c.client == Idle ==> |c.history| == c.served == c.issued)
      && forall k: nat {:trigger c.history[k]} :: k < |c.history| && c.history[k].op.Read? ==>
           c.history[k].out == LastWrite(mem, c.history[..k], c.history[k].op.n)
  {
    var c := Run(Start(mem), moves);
    RunKeepsInv(mem, moves);
    hide BlockAt, WithBlock, LastWrite, Run;
    forall k: nat | k < |c.history| && c.history[k].op.Read?
      ensures c.history[k].out == LastWrite(mem, c.history[..k], c.history[k].op.n)
    {
      AfterIsLastWrite(mem, c.history[..k], c.history[k].op.n);
    }
  }

  // ---------- the requests ----------

  /** What disk_rw was called with, in order: the operations of the client's moves from idle. */
  function Requests(c: Chan, moves: seq<Move>): seq<Op>
  {
    if moves == [] then [] else
      var (before, m) := (moves[..|moves| - 1], moves[|moves| - 1]);
      Requests(c, before) + if m.ClientMoves? && Run(c, before).client == Idle then [m.op] else []
  }

  /** The completed operations of `c` are the requests `asked`, or all but the last, and then that
      is the pending one. */
  ghost predicate Follows(c: Chan, asked: seq<Op>)
  {
    && |asked| == c.issued == |c.history| + (if c.client == Idle then 0 else 1)
    && (forall k :: 0 <= k < |c.history| ==> c.history[k].op == asked[k])
    && (c.client != Idle ==> OpOf(c.client, asked[|asked| - 1]))
  }

  lemma StepFollows(c: Chan, op: Op, asked: seq<Op>)
    requires Follows(c, asked) && c.client != Panicked && ClientStep(c, op).client != Panicked
    ensures Follows(ClientStep(c, op), asked + if c.client == Idle then [op] else [])
  {
    var asked' := asked + if c.client == Idle then [op] else [];
    assert c.client != Idle ==> asked' == asked;
  }

  lemma ServerFollows(c: Chan, asked: seq<Op>)
    requires Follows(c, asked)
    ensures Follows(ServerStep(c), asked)
  {
    hide BlockAt, WithBlock;
  }

  /** In every interleaving the completed operations are the requests, all of them or all but the
      last, and then that is the pending one. */
  lemma {:induction false} HistoryIsRequests(mem: seq<Byte>, moves: seq<Move>)
    requires |mem| == MAX_RAMDISK_SIZE && forall k: nat {:trigger moves[k]} :: k < |moves| && moves[k].ClientMoves? ==>
      moves[k].op.n < FSSIZE
    ensures Follows(Run(Start(mem), moves), Requests(Start(mem), moves))
  {
    if moves != [] {
      var (before, m) := (moves[..|moves| - 1], moves[|moves| - 1]);
      HistoryIsRequests(mem, before);
      RunKeepsInv(mem, moves);
      RunKeepsInv(mem, before);
      PanicIsOut(Run(Start(mem), moves), mem);
      PanicIsOut(Run(Start(mem), before), mem);
      var (c, asked) := (Run(Start(mem), before), Requests(Start(mem), before));
      if m.ClientMoves? { StepFollows(c, m.op, asked); } else { ServerFollows(c, asked); }
      hide Inv, ClientStep, ServerStep, Follows;
      assert Requests(Start(mem), moves) == if m.ClientMoves? && c.client == Idle then asked + [m.op] else asked;
    }
  }

  lemma PanicIsOut(c: Chan, mem: seq<Byte>)
    requires Inv(c, mem)
    ensures c.client != Panicked
  {
    hide BlockAt, WithBlock, After, Inside, Atomic;
  }

  /** After the requests `asked` block `n` is `b`: that is what the last of them to write the block
      wrote, or what the block was at the start. */
  ghost predicate Current(mem: seq<Byte>, asked: seq<Op>, n: nat, b: Block)
  {
    || (exists j :: 0 <= j < |asked| && asked[j] == Write(n, b) && Unwritten(asked, n, j + 1))
    || (Unwritten(asked, n, 0) && 1024 * n + 1024 <= |mem| && b == mem[1024 * n..1024 * n + 1024])
  }

  ghost predicate Unwritten(asked: seq<Op>, n: nat, from: nat)
  {
    forall i :: from <= i < |asked| ==> !(asked[i].Write? && asked[i].n == n)
  }

  lemma {:induction false} LastWriteIsCurrent(mem: seq<Byte>, history: seq<Done>, asked: seq<Op>, n: nat)
    requires |history| == |asked| && forall k :: 0 <= k < |history| ==> history[k].op == asked[k]
    requires 1024 * n + 1024 <= |mem|
    ensures Current(mem, asked, n, LastWrite(mem, history, n))
  {
    if history != [] {
      var (k, o) := (|history| - 1, history[|history| - 1].op);
      if o.Write? && o.n == n {
        assert asked[k] == Write(n, o.data) && Unwritten(asked, n, k + 1);
      } else {
        LastWriteIsCurrent(mem, history[..k], asked[..k], n);
        StillCurrent(mem, asked, n, LastWrite(mem, history[..k], n));
      }
    }
  }

  lemma StillCurrent(mem: seq<Byte>, asked: seq<Op>, n: nat, b: Block)
    requires asked != [] && Current(mem, asked[..|asked| - 1], n, b)
    requires var o := asked[|asked| - 1]; !(o.Write? && o.n == n)
    ensures Current(mem, asked, n, b)
  {
    var before := asked[..|asked| - 1];
    if j :| 0 <= j < |before| && before[j] == Write(n, b) && Unwritten(before, n, j + 1) {
      assert asked[j] == Write(n, b) && Unwritten(asked, n, j + 1);
    } else {
      assert Unwritten(asked, n, 0);
    }
  }

  /** The ramdisk at rest. */
  lemma MemoryOf(c: Chan, mem: seq<Byte>)
    requires Inv(c, mem)
    ensures |c.mem| == |mem| == 33554432
    ensures c.client == Idle ==> forall n: nat {:trigger LastWrite(mem, c.history, n)} :: n < 32768 ==>
      c.mem[n * 1024..n * 1024 + 1024] == LastWrite(mem, c.history, n)
  {
    hide LastWrite, After, WithBlock, Atomic;
    if c.client == Idle {
      assert c.mem == After(mem, c.history);
      forall n: nat | n < 32768 ensures c.mem[n * 1024..n * 1024 + 1024] == LastWrite(mem, c.history, n) {
        AfterIsLastWrite(mem, c.history, n);
      }
    }
  }

  /** What a client gets for what it asked: a request to read a block returns the data of the last
      request before it to write that block, or what was there at the start; and when none is
      pending, the ramdisk holds in every block what the last request to write it asked for. */
  lemma RequestsAreAnswered(mem: seq<Byte>, moves: seq<Move>)
    requires |mem| == MAX_RAMDISK_SIZE && forall k: nat {:trigger moves[k]} :: k < |moves| && moves[k].ClientMoves? ==>
      moves[k].op.n < FSSIZE
    ensures var (c, asked) := (Run(Start(mem), moves), Requests(Start(mem), moves));
      && |c.history| <= |asked| <= |c.history| + 1 && |c.mem| == 33554432
      && (forall k: nat {:trigger c.history[k]} :: k < |c.history| && asked[k].Read? ==>
           Current(mem, asked[..k], asked[k].n, c.history[k].out))
      && (c.client == Idle ==> forall n: nat :: n < 32768 ==>
           Current(mem, asked, n, c.mem[n * 1024..n * 1024 + 1024]))
  {
    var (c, asked) := (Run(Start(mem), moves), Requests(Start(mem), moves));
    HistoryIsRequests(mem, moves);
    ChannelIsAtomicArray(mem, moves);
    RunKeepsInv(mem, moves);
    MemoryOf(c, mem);
    OpsInside(c, mem);
    hide *;
    AnswersFollow(c, mem, asked);
  }

  lemma OpsInside(c: Chan, mem: seq<Byte>)
    requires Inv(c, mem)
    ensures forall k: nat {:trigger c.history[k]} :: k < |c.history| ==> c.history[k].op.n < 32768
  {
    hide Phase, Atomic, After;
  }

  /** The read law carried from the history to the requests. */
  lemma AnswersFollow(c: Chan, mem: seq<Byte>, asked: seq<Op>)
    requires Follows(c, asked) && |c.mem| == |mem| == 33554432
    requires forall k: nat {:trigger c.history[k]} :: k < |c.history| ==> c.history[k].op.n < 32768
    requires forall k: nat {:trigger c.history[k]} :: k < |c.history| && c.history[k].op.Read? ==>
      c.history[k].out == LastWrite(mem, c.history[..k], c.history[k].op.n)
    requires c.client == Idle ==> forall n: nat {:trigger LastWrite(mem, c.history, n)} :: n < 32768 ==>
      c.mem[n * 1024..n * 1024 + 1024] == LastWrite(mem, c.history, n)
    ensures |c.history| <= |asked| <= |c.history| + 1
    ensures forall k: nat {:trigger c.history[k]} :: k < |c.history| && asked[k].Read? ==>
      Current(mem, asked[..k], asked[k].n, c.history[k].out)
    ensures c.client == Idle ==> forall n: nat :: n < 32768 ==>
      Current(mem, asked, n, c.mem[n * 1024..n * 1024 + 1024])
  {
    hide LastWrite, Current, OpOf;
    forall k: nat | k < |c.history| && asked[k].Read?
      ensures Current(mem, asked[..k], asked[k].n, c.history[k].out)
    {
      LastWriteIsCurrent(mem, c.history[..k], asked[..k], asked[k].n);
    }
    if c.client == Idle {
      forall n: nat | n < 32768 ensures Current(mem, asked, n, c.mem[n * 1024..n * 1024 + 1024]) {
        LastWriteIsCurrent(mem, c.history, asked, n);
      }
    }
  }

  // ---------- disk_rw returns ----------

  /** The side that can go on: the one in its critical section, the server while the request waits
      for it, and else the client. */
  function Next(c: Chan): Move
  {
    if ServerHolds(c.server) || (c.client.Waiting? && c.tag != Nothing) then ServerMoves else ClientMoves(Read(0))
  }

  function Go(c: Chan, m: Move): Chan { if m.ClientMoves? then ClientStep(c, m.op) else ServerStep(c) }

  /** How many steps are missing at most. */
  function Missing(c: Chan): nat
  {
    match c.client
    case Idle => 0
    case Panicked => 0
    case Finishing(_, _) => 1
    case Copying(_) => 2
    case Checking(_) => 3
    case Waiting(_) =>
      (match c.server
       case Leaving => 5
       case Replying(_) => 6
       case Clearing(_) => 7
       case Serving => 8
       case Testing => if c.tag == Nothing then 5 else 9
       case Resting => if c.tag == Nothing then 4 else 10
       case Faulted => 0)
    case Releasing(_) => 11
    case Filling(_) => 12
    case Addressing(_) => 13
    case Labelling(_) => 14
    case Acquiring(_) => if c.server == Resting then 15 else 16
  }

  /** A step of the side that can go on brings the pending disk_rw nearer to its end; it ends with
      that operation completed and asks for nothing more. */
  lemma NextIsNearer(c: Chan, mem: seq<Byte>)
    requires Inv(c, mem) && c.client != Idle
    ensures Inv(Go(c, Next(c)), mem) && Missing(Go(c, Next(c))) < Missing(c)
    ensures var c' := Go(c, Next(c));
      if c'.client == Idle then exists out :: c'.history == c.history + [Done(c.client.op, out)]
      else c'.history == c.history && OpOf(c'.client, c.client.op)
  {
    PanicIsOut(c, mem);
    if Next(c).ClientMoves? { ClientKeepsInv(c, Read(0), mem); } else { ServerKeepsInv(c, mem); }
    PanicIsOut(Go(c, Next(c)), mem);
    if Next(c).ClientMoves? { NextCanGo(c, mem); }
    hide Inv, BlockAt, WithBlock;
    if Next(c).ClientMoves? { ClientIsNearer(c); } else { ServerIsNearer(c, mem); }
  }

  lemma NextCanGo(c: Chan, mem: seq<Byte>)
    requires Inv(c, mem) && c.client != Idle && Next(c).ClientMoves?
    ensures c.client.Acquiring? || c.client.Waiting? ==> c.lock == Free
    ensures c.server != Faulted && (c.client.Filling? ==> c.client.op.Write?)
  {
    hide BlockAt, WithBlock, After, Atomic, Inside;
  }

  lemma ClientIsNearer(c: Chan)
    requires c.client != Idle && c.client != Panicked && ClientStep(c, Read(0)).client != Panicked
    requires Next(c).ClientMoves? && c.server != Faulted && (c.client.Filling? ==> c.client.op.Write?)
    requires c.client.Acquiring? || c.client.Waiting? ==> c.lock == Free
    ensures Missing(ClientStep(c, Read(0))) < Missing(c)
    ensures var c' := ClientStep(c, Read(0));
      if c'.client == Idle then exists out :: c'.history == c.history + [Done(c.client.op, out)]
      else c'.history == c.history && OpOf(c'.client, c.client.op)
  {
    var c' := ClientStep(c, Read(0));
    if c'.client == Idle {
      var out := if c.client.Finishing? then c.client.out else Zeros();
      hide Zeros;
      assert c'.history == c.history + [Done(c.client.op, out)];
    }
  }

  lemma ServerIsNearer(c: Chan, mem: seq<Byte>)
    requires Inv(c, mem) && Inv(ServerStep(c), mem) && c.client != Idle && c.client != Panicked
    requires Next(c) == ServerMoves
    ensures Missing(ServerStep(c)) < Missing(c)
    ensures ServerStep(c).history == c.history && ServerStep(c).client == c.client
  {
    hide BlockAt, WithBlock, After, Atomic, Inside;
  }

  lemma OneMove(mem: seq<Byte>, moves: seq<Move>, m: Move)
    ensures Run(Start(mem), moves + [m]) == Go(Run(Start(mem), moves), m)
    ensures Run(Start(mem), moves).client != Idle ==>
      Requests(Start(mem), moves + [m]) == Requests(Start(mem), moves)
  {
    var moves' := moves + [m];
    assert moves'[..|moves'| - 1] == moves;
    hide ClientStep, ServerStep;
  }

  lemma AtMostSixteen(c: Chan)
    ensures Missing(c) <= 16
  {
  }

  lemma ReadsBlockZero(c: Chan)
    ensures Next(c).ClientMoves? ==> Next(c).op == Read(0)
  {
  }

  /** From every reachable state there is a way on, of at most sixteen steps, that completes the
      pending disk_rw, and nothing else. */
  lemma {:induction false} DiskRwReturns(mem: seq<Byte>, moves: seq<Move>) returns (more: seq<Move>)
    requires |mem| == MAX_RAMDISK_SIZE && forall k: nat {:trigger moves[k]} :: k < |moves| && moves[k].ClientMoves? ==>
      moves[k].op.n < FSSIZE
    ensures |more| <= Missing(Run(Start(mem), moves)) <= 16
    ensures var (c, c') := (Run(Start(mem), moves), Run(Start(mem), moves + more));
      && c'.client == Idle && Requests(Start(mem), moves + more) == Requests(Start(mem), moves)
      && if c.client == Idle then c' == c else |c'.history| == |c.history| + 1
    decreases Missing(Run(Start(mem), moves))
  {
    hide Inv, Run, Requests, Missing, Go, Next;
    var c := Run(Start(mem), moves);
    more := [];
    assert moves + more == moves;
    AtMostSixteen(c);
    if c.client != Idle {
      var m := Next(c);
      RunKeepsInv(mem, moves);
      NextIsNearer(c, mem);
      var moves' := moves + [m];
      OneMove(mem, moves, m);
      assert m.ClientMoves? ==> m.op.n < FSSIZE by { ReadsBlockZero(c); }
      var rest := DiskRwReturns(mem, moves');
      assert moves' + rest == moves + ([m] + rest);
      more := [m] + rest;
    }
  }
}
