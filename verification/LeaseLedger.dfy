/** Who owns what: a multiset of handles, one member per reference held somewhere,
    that the pool's reference counts must match, and how each pool call moves it. */
module LeaseLedger {
  import opened Words
  import opened Wrappers
  import opened LeasePool

  type Refs = multiset<Handle>

  ghost function HandleAt(p: Pool, i: nat): Handle
    requires i < |p.slots| < 0xFFFF
  {
    Handle(i, p.slots[i].gen)
  }

  /** Every reference is to a live slot, and every reference count is the number
      of references to its slot. */
  ghost predicate Ledger(p: Pool, refs: Refs) {
    && PoolInv(p) && !p.aborted
    && (forall h :: h in refs ==> Live(p, h))
    && (forall i: nat :: i < |p.slots| ==> p.slots[i].refcnt == refs[HandleAt(p, i)])
  }

  /** What a holder of h can see of its slot. */
  ghost predicate SameContent(p: Pool, q: Pool, h: Handle) {
    && h.idx < |p.slots| == |q.slots| && q.cap == p.cap
    && q.slots[h.idx].len == p.slots[h.idx].len && q.slots[h.idx].buf == p.slots[h.idx].buf
  }

  lemma AcquireOk(p: Pool, refs: Refs, h: Handle)
    requires Ledger(p, refs) && h in refs
    ensures Acquire(p, h) == (p, Some(View(h.idx, p.slots[h.idx].len, p.cap)))
  {
    assert Live(p, h) && SlotOk(p, h.idx);
  }

  lemma CountAt(p: Pool, refs: Refs, h: Handle)
    requires Ledger(p, refs) && h in refs
    ensures h.idx < |p.slots| < 0xFFFF && HandleAt(p, h.idx) == h
    ensures p.slots[h.idx].refcnt == refs[h] <= |refs|
  {
    assert Live(p, h);
    assert HandleAt(p, h.idx) == h;
  }

  lemma AddRefOk(p: Pool, refs: Refs, h: Handle)
    requires Ledger(p, refs) && h in refs && refs[h] < 0xFFFF
    ensures Ledger(AddRef(p, h, 1), refs + multiset{h})
    ensures forall k :: k in refs ==> SameContent(p, AddRef(p, h, 1), k)
  {
    var q := AddRef(p, h, 1);
    CountAt(p, refs, h);
    AddRefInv(p, h, 1);
    assert SlotOk(p, h.idx);
    assert q == p.(slots := p.slots[h.idx := p.slots[h.idx].(refcnt := p.slots[h.idx].refcnt + 1)]);
    forall i: nat | i < |q.slots|
      ensures q.slots[i].refcnt == (refs + multiset{h})[HandleAt(q, i)]
    {
      assert HandleAt(q, i) == HandleAt(p, i);
      assert p.slots[i].refcnt == refs[HandleAt(p, i)];
    }
    forall k | k in refs
      ensures Live(q, k)
    {
      assert Live(p, k);
    }
  }

  lemma ReleaseOk(p: Pool, refs: Refs, h: Handle)
    requires Ledger(p, refs) && h in refs
    ensures Ledger(Release(p, h), refs - multiset{h})
    ensures forall k :: k in refs - multiset{h} ==> SameContent(p, Release(p, h), k)
  {
    var q, left := Release(p, h), refs - multiset{h};
    CountAt(p, refs, h);
    ReleaseInv(p, h);
    RoomOnFreeList(p, h);
    assert SlotOk(p, h.idx);
    forall k | k in left
      ensures Live(q, k) && SameContent(p, q, k)
    {
      CountAt(p, refs, k);
      if k.idx == h.idx {
        assert k == h && refs[h] > 1;
      }
    }
    forall i: nat | i < |q.slots|
      ensures q.slots[i].refcnt == left[HandleAt(q, i)]
    {
      assert p.slots[i].refcnt == refs[HandleAt(p, i)];
      if i == h.idx && p.slots[i].refcnt == 1 {
        assert HandleAt(q, i).gen != h.gen;
        assert !Live(p, HandleAt(q, i));
      } else {
        assert HandleAt(q, i) == HandleAt(p, i);
      }
    }
  }

  lemma AllocOk(p: Pool, refs: Refs, want: nat)
    requires Ledger(p, refs)
    ensures var (q, h) := AllocTry(p, want);
      if h.idx == 0xFFFF then Ledger(q, refs) && q.slots == p.slots && q.cap == p.cap
      else Ledger(q, refs + multiset{h}) && h !in refs && forall k :: k in refs ==> SameContent(p, q, k)
  {
    var (q, h) := AllocTry(p, want);
    AllocInv(p, want);
    if want > p.cap || p.freeTop == 0 {
      forall i: nat | i < |q.slots|
        ensures q.slots[i].refcnt == refs[HandleAt(q, i)]
      {
        assert p.slots[i].refcnt == refs[HandleAt(p, i)];
      }
      assert forall k :: k in refs ==> Live(p, k);
    } else {
      var idx := p.free[p.freeTop - 1];
      assert InFree(p, idx) by { assert p.free[..p.freeTop][p.freeTop - 1] == idx; }
      assert SlotOk(p, idx);
      assert h == HandleAt(p, idx);
      assert p.slots[idx].refcnt == refs[HandleAt(p, idx)];
      forall k | k in refs
        ensures Live(q, k) && SameContent(p, q, k)
      {
        CountAt(p, refs, k);
      }
      forall i: nat | i < |q.slots|
        ensures q.slots[i].refcnt == (refs + multiset{h})[HandleAt(q, i)]
      {
        assert HandleAt(q, i) == HandleAt(p, i);
        assert p.slots[i].refcnt == refs[HandleAt(p, i)];
      }
    }
  }

  /** A change of one slot's contents moves no reference. */
  lemma ContentChanged(p: Pool, refs: Refs, h: Handle, q: Pool)
    requires Ledger(p, refs) && h in refs && PoolInv(q)
    requires q == p.(slots := q.slots) && |q.slots| == |p.slots|
    requires forall i :: 0 <= i < |p.slots| ==>
      q.slots[i].gen == p.slots[i].gen && q.slots[i].refcnt == p.slots[i].refcnt
      && (i != h.idx ==> q.slots[i] == p.slots[i])
    ensures Ledger(q, refs)
    ensures forall k :: k in refs && k != h ==> SameContent(p, q, k)
  {
    forall i: nat | i < |q.slots|
      ensures q.slots[i].refcnt == refs[HandleAt(q, i)]
    {
      assert p.slots[i].refcnt == refs[HandleAt(p, i)];
    }
    forall k | k in refs
      ensures Live(q, k) && (k != h ==> SameContent(p, q, k))
    {
      CountAt(p, refs, k);
      CountAt(p, refs, h);
    }
  }

  lemma CommitOk(p: Pool, refs: Refs, h: Handle, len: nat)
    requires Ledger(p, refs) && h in refs && len <= p.cap
    ensures Ledger(Commit(p, h, len), refs)
    ensures Commit(p, h, len).slots[h.idx].len == len
    ensures forall k :: k in refs && k != h ==> SameContent(p, Commit(p, h, len), k)
  {
    CountAt(p, refs, h);
    assert SlotOk(p, h.idx);
    CommitInv(p, h, len);
    ContentChanged(p, refs, h, Commit(p, h, len));
  }

  lemma WriteOk(p: Pool, refs: Refs, h: Handle, off: nat, b: Byte)
    requires Ledger(p, refs) && h in refs
    ensures Ledger(Write(p, View(h.idx, 0, p.cap), off, b), refs)
    ensures forall k :: k in refs && k != h ==> SameContent(p, Write(p, View(h.idx, 0, p.cap), off, b), k)
  {
    CountAt(p, refs, h);
    WriteInv(p, View(h.idx, 0, p.cap), off, b);
    ContentChanged(p, refs, h, Write(p, View(h.idx, 0, p.cap), off, b));
  }
}
