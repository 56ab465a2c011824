/** Counting references to inodes across several calls: how many more references a
    caller holds than at some earlier state, and that entries in use stay put. */
module References {
  import opened Layout
  import opened BlockTree
  import opened Invariant

  /** Since `st`, exactly the references in `held` have been added.  Inodes referenced at
      `st` keep their table entry, and stay loaded if they were. */
  ghost predicate Holding(st: State, st': State, held: multiset<nat>)
  {
    && Inv(st', 0)
    && (forall j: nat {:trigger RefOf(st'.itable, st'.slots, j)} ::
       RefOf(st'.itable, st'.slots, j) == RefOf(st.itable, st.slots, j) + held[j])
    && (forall j: nat {:trigger j in st.slots} {:trigger st'.slots[j]} :: j in st.slots ==>
       j in st'.slots && st'.slots[j] == st.slots[j])
    && (forall j: nat {:trigger Cached(st'.itable, st'.slots, j)} :: Cached(st.itable, st.slots, j) ==>
       Cached(st'.itable, st'.slots, j))
  }

  /** An inode has an entry exactly when its reference count is positive. */
  lemma ReferencedIffPositive(st: State)
    requires Inv(st, 0)
    ensures forall j: nat {:trigger RefOf(st.itable, st.slots, j)} :: RefOf(st.itable, st.slots, j) > 0 <==>
      j in st.slots
    ensures 0 !in st.slots
  {
    SlotsOfReferenced(st);
    hide TreesOk, FilesOk;
    assert 0 in st.slots ==> SlotOk(st.itable, st.slots[0], st.live, 0);
  }

  lemma HoldNothing(st: State)
    requires Inv(st, 0)
    ensures Holding(st, st, multiset{})
  {
    hide Inv;
  }

  lemma HeldIsReferenced(st: State, st': State, held: multiset<nat>, i: nat)
    requires Holding(st, st', held) && i in held
    ensures i in st'.slots && st'.slots[i] < NINODE && |st'.itable| == NINODE && i != 0
    ensures st'.itable[st'.slots[i]].ref > 0 && st'.itable[st'.slots[i]].inum == i
  {
    hide Inv;
    ReferencedIffPositive(st');
    SlotsOfReferenced(st');
    assert RefOf(st'.itable, st'.slots, i) > 0;
  }

  /** One more reference, by iget, idup or ialloc. */
  lemma HoldOneMore(st: State, st1: State, st2: State, held: multiset<nat>, i: nat, ip: nat)
    requires Inv(st, 0) && Holding(st, st1, held) && Inv(st2, 0) && RefsMoved(st1, st2, i, 1)
      && st2.slots == st1.slots[i := ip]
    ensures Holding(st, st2, held + multiset{i}) && i in st2.slots && st2.slots[i] == ip
  {
    hide Inv;
    ReferencedIffPositive(st);
    ReferencedIffPositive(st1);
    ReferencedIffPositive(st2);
    forall j: nat
      ensures RefOf(st2.itable, st2.slots, j) == RefOf(st.itable, st.slots, j) + (held + multiset{i})[j]
      ensures j in st.slots ==> j in st2.slots && st2.slots[j] == st.slots[j]
      ensures Cached(st.itable, st.slots, j) ==> Cached(st2.itable, st2.slots, j)
    {
      assert RefOf(st1.itable, st1.slots, j) == RefOf(st.itable, st.slots, j) + held[j];
      assert RefOf(st2.itable, st2.slots, j) == RefOf(st1.itable, st1.slots, j) + if j == i then 1 else 0;
      assert Cached(st.itable, st.slots, j) ==> j in st.slots && Cached(st1.itable, st1.slots, j);
      if j in st.slots { assert st1.slots[j] == st.slots[j] && st2.slots[j] == st1.slots[j]; }
    }
  }

  lemma HoldAfterGet(st: State, st1: State, st2: State, held: multiset<nat>, i: nat, ip: nat)
    requires Inv(st, 0) && Holding(st, st1, held) && GetOk(st1, st2, i, ip)
    ensures Holding(st, st2, held + multiset{i}) && i in st2.slots && st2.slots[i] == ip
    ensures SameDisk(st1, st2)
  {
    hide Inv, Holding, RefsMoved;
    assert st2.slots == st1.slots[i := ip];
    HoldOneMore(st, st1, st2, held, i, ip);
  }

  lemma HoldAfterLock(st: State, st1: State, st2: State, held: multiset<nat>, i: nat)
    requires Holding(st, st1, held) && LockOk(st1, st2, i)
    ensures Holding(st, st2, held) && Cached(st2.itable, st2.slots, i) && st2.slots == st1.slots
    ensures SameDisk(st1, st2)
  {
    hide Inv;
    assert st2.slots == st1.slots;
    forall k: nat
      ensures RefOf(st2.itable, st2.slots, k) == RefOf(st.itable, st.slots, k) + held[k]
      ensures Cached(st.itable, st.slots, k) ==> Cached(st2.itable, st2.slots, k)
    {
      assert RefOf(st1.itable, st1.slots, k) == RefOf(st.itable, st.slots, k) + held[k];
      if k in st1.slots && st1.slots[k] < |st1.itable| {
        assert st2.itable[st1.slots[k]].ref == st1.itable[st1.slots[k]].ref;
      }
      assert Cached(st.itable, st.slots, k) ==> Cached(st1.itable, st1.slots, k);
    }
  }

  lemma HoldTransitive(st: State, st1: State, st2: State, held: multiset<nat>, more: multiset<nat>)
    requires Holding(st, st1, held) && Holding(st1, st2, more) && Inv(st, 0)
    ensures Holding(st, st2, held + more)
  {
    hide Inv;
    ReferencedIffPositive(st);
    ReferencedIffPositive(st1);
    forall j: nat
      ensures RefOf(st2.itable, st2.slots, j) == RefOf(st.itable, st.slots, j) + (held + more)[j]
      ensures j in st.slots ==> j in st2.slots && st2.slots[j] == st.slots[j]
      ensures Cached(st.itable, st.slots, j) ==> Cached(st2.itable, st2.slots, j)
    {
      assert RefOf(st1.itable, st1.slots, j) == RefOf(st.itable, st.slots, j) + held[j];
      assert Cached(st.itable, st.slots, j) ==> Cached(st1.itable, st1.slots, j);
      if j in st.slots { assert j in st1.slots; }
    }
  }

  /** A step that moves no reference. */
  ghost predicate RefsKept(st: State, st': State)
  {
    && st'.slots == st.slots
    && (forall j: nat {:trigger RefOf(st'.itable, st'.slots, j)} ::
       RefOf(st'.itable, st'.slots, j) == RefOf(st.itable, st.slots, j))
    && (forall j: nat {:trigger Cached(st'.itable, st'.slots, j)} :: Cached(st.itable, st.slots, j) ==>
       Cached(st'.itable, st'.slots, j))
  }

  lemma SameRefsKept(st: State, st': State)
    requires st'.slots == st.slots && SameRefs(st.itable, st'.itable)
    ensures RefsKept(st, st')
  {
    forall j: nat
      ensures RefOf(st'.itable, st'.slots, j) == RefOf(st.itable, st.slots, j)
      ensures Cached(st'.itable, st'.slots, j) == Cached(st.itable, st.slots, j)
    {
      if j in st.slots && st.slots[j] < |st.itable| {
        assert st'.itable[st.slots[j]].valid == st.itable[st.slots[j]].valid;
      }
    }
  }

  lemma HoldAfterKeep(st: State, st1: State, st2: State, held: multiset<nat>)
    requires Holding(st, st1, held) && RefsKept(st1, st2) && Inv(st2, 0)
    ensures Holding(st, st2, held)
  {
    hide Inv;
    forall k: nat
      ensures RefOf(st2.itable, st2.slots, k) == RefOf(st.itable, st.slots, k) + held[k]
      ensures Cached(st.itable, st.slots, k) ==> Cached(st2.itable, st2.slots, k)
    {
      assert RefOf(st1.itable, st1.slots, k) == RefOf(st.itable, st.slots, k) + held[k];
      assert Cached(st.itable, st.slots, k) ==> Cached(st1.itable, st1.slots, k);
    }
  }

  ghost predicate Linked(files: seq<File>, i: nat) { 0 < i < |files| && files[i].File? && files[i].nlink != 0 }

  /** Dropping a held reference.  The inode goes away only if it has no links, and nobody
      else, neither the caller nor anyone at `st`, refers to it. */
  lemma HoldAfterPut(st: State, st1: State, st2: State, held: multiset<nat>, i: nat)
    requires Inv(st, 0) && Holding(st, st1, held) && i in held && PutOk(st1, st2, i)
    ensures Holding(st, st2, held - multiset{i})
    ensures LastPut(st1, i) ==> held[i] == 1 && i !in st.slots && !Linked(st1.files, i)
    ensures st2.files == (if LastPut(st1, i) then st1.files[i := Free] else st1.files)
    ensures st2.solid == (if LastPut(st1, i) then st1.solid - {i} else st1.solid)
    ensures st2.marked == (if LastPut(st1, i) then st1.marked - BlocksOf(st1.owner, i) else st1.marked)
  {
    hide Inv, BlocksOf;
    ReferencedIffPositive(st);
    ReferencedIffPositive(st1);
    ReferencedIffPositive(st2);
    assert RefOf(st1.itable, st1.slots, i) == RefOf(st.itable, st.slots, i) + held[i];
    if LastPut(st1, i) { LastPutUnlinked(st1, i); }
    forall j: nat
      ensures RefOf(st2.itable, st2.slots, j) == RefOf(st.itable, st.slots, j) + (held - multiset{i})[j]
      ensures j in st.slots ==> j in st2.slots && st2.slots[j] == st.slots[j]
      ensures Cached(st.itable, st.slots, j) ==> Cached(st2.itable, st2.slots, j)
    {
      assert RefOf(st1.itable, st1.slots, j) == RefOf(st.itable, st.slots, j) + held[j];
      assert RefOf(st2.itable, st2.slots, j) == RefOf(st1.itable, st1.slots, j) + if j == i then -1 else 0;
      assert Cached(st.itable, st.slots, j) ==> j in st.slots && Cached(st1.itable, st1.slots, j);
      if j in st.slots { assert st1.slots[j] == st.slots[j] && RefOf(st.itable, st.slots, j) > 0; }
    }
  }

  /** Giving a reference back, when the inode stays and nobody had changed it, leaves no trace
      but in the inode table. */
  lemma PutLeavesNoTrace(st: State, st1: State, st2: State, held: multiset<nat>, i: nat)
    requires Inv(st, 0) && Holding(st, st1, held) && i in held && PutOk(st1, st2, i) && !LastPut(st1, i)
    requires i in st.slots || (Exists(st1, i) && st1.inodes[i] == st1.live[i])
    ensures SameDisk(st1, st2)
  {
    hide Inv, BlocksOf, LastPut;
    ReferencedIffPositive(st);
    assert RefOf(st1.itable, st1.slots, i) == RefOf(st.itable, st.slots, i) + held[i];
  }

  lemma PutExists(st: State, st': State, i: nat)
    requires PutOk(st, st', i)
    ensures Exists(st, i)
  {
    hide Inv, LastPut, BlocksOf, RefsMoved;
  }

  /** The disk has an inode as it is when nobody refers to it. */
  lemma UnreferencedIsSynced(st: State, i: nat)
    requires Inv(st, 0) && i < |st.live|
    ensures i in st.slots || (Exists(st, i) && st.inodes[i] == st.live[i])
  {
    hide TreesOk, TableOk, InodeOk, Dense;
    assert !(i in st.slots) ==> !Cached(st.itable, st.slots, i);
    assert st.live[i] == st.live[i];
  }

  /** The entry of another held inode stays where it is over an iput. */
  lemma KeptSlot(st: State, st1: State, st2: State, held: multiset<nat>, i: nat, n: nat)
    requires Holding(st, st1, held) && PutOk(st1, st2, i) && held[n] > (if n == i then 1 else 0)
    ensures n in st1.slots && n in st2.slots && st2.slots[n] == st1.slots[n]
  {
    hide Inv;
    ReferencedIffPositive(st1);
    ReferencedIffPositive(st2);
    assert RefOf(st1.itable, st1.slots, n) == RefOf(st.itable, st.slots, n) + held[n];
    assert RefOf(st2.itable, st2.slots, n) > 0;
  }

  /** With the inode loaded, those conditions are exact. */
  lemma LastPutIff(st: State, st1: State, held: multiset<nat>, i: nat)
    requires Inv(st, 0) && Holding(st, st1, held) && i in held && Cached(st1.itable, st1.slots, i)
    ensures i < |st1.files| && st1.files[i].File?
    ensures LastPut(st1, i) <==> held[i] == 1 && i !in st.slots && st1.files[i].nlink == 0
  {
    HeldFacts(st1, i);
    TypeOfFile(st1, i);
    ReferencedIffPositive(st);
    assert RefOf(st1.itable, st1.slots, i) == RefOf(st.itable, st.slots, i) + held[i];
    hide Inv;
  }

  /** What was loaded stays loaded over an iput that leaves the entry in use. */
  lemma StaysLoaded(st: State, st1: State, st2: State, held: multiset<nat>, i: nat, n: nat)
    requires Holding(st, st1, held) && PutOk(st1, st2, i) && Cached(st1.itable, st1.slots, n) && n in st2.slots
    ensures Cached(st2.itable, st2.slots, n)
  {
    hide Inv;
  }

  lemma LastPutUnlinked(st: State, i: nat)
    requires Inv(st, 0) && LastPut(st, i)
    ensures RefOf(st.itable, st.slots, i) == 1 && !Linked(st.files, i)
  {
    HeldFacts(st, i);
    TypeOfFile(st, i);
    hide Inv;
  }

  /** The inodes with an entry are those that had one and those held. */
  lemma HoldingKeys(st: State, st': State, held: multiset<nat>)
    requires Inv(st, 0) && Holding(st, st', held)
    ensures st'.slots.Keys == st.slots.Keys + Distinct(held)
  {
    hide Inv;
    ReferencedIffPositive(st);
    ReferencedIffPositive(st');
    forall j: nat ensures j in st'.slots <==> j in st.slots || j in held {
      assert RefOf(st'.itable, st'.slots, j) == RefOf(st.itable, st.slots, j) + held[j];
    }
  }

  function Distinct(m: multiset<nat>): set<nat> { set j | j in m }

  lemma {:induction false} SetOfMultiset(m: multiset<nat>)
    ensures |Distinct(m)| <= |m|
    decreases |m|
  {
    if m != multiset{} {
      var x :| x in m;
      SetOfMultiset(m - multiset{x});
      var rest := Distinct(m - multiset{x});
      SubsetCard(Distinct(m), rest + {x});
      assert |rest + {x}| <= |rest| + 1;
    }
  }
}
