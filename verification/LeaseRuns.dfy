/** Runs of pool calls: the invariant over every run, when exactly a guard
    aborts, and how long a generation protects against a stale handle. */
module LeaseRuns {
  import opened Words
  import opened LeasePool

  datatype Call =
    | CallAlloc(want: nat)
    | CallAcquire(h: Handle)
    | CallCommit(h: Handle, len: nat)
    | CallAddRef(h: Handle, n: U16)
    | CallRelease(h: Handle)
    | CallWrite(h: Handle, off: nat, b: Byte)
    | CallResetStats

  /** One call; after an abort() nothing happens any more. A store goes through
      the view of a live handle (client contract). Only states that satisfy the
      invariant occur, see `RunInv`. */
  ghost function Do(p: Pool, c: Call): Pool {
    if p.aborted || !PoolInv(p) then p
    else
      match c
      case CallAlloc(want) => AllocTry(p, want).0
      case CallAcquire(h) => Acquire(p, h).0
      case CallCommit(h, len) => Commit(p, h, len)
      case CallAddRef(h, n) => AddRef(p, h, n)
      case CallRelease(h) => Release(p, h)
      case CallWrite(h, off, b) => if Live(p, h) then Write(p, View(h.idx, 0, p.cap), off, b) else p
      case CallResetStats => ResetStats(p)
  }

  lemma DoInv(p: Pool, c: Call)
    requires PoolInv(p)
    ensures PoolInv(Do(p, c)) && |Do(p, c).slots| == |p.slots|
  {
    match c {
      case CallAlloc(want) => AllocInv(p, want);
      case CallAcquire(h) => SameSlots(p, Acquire(p, h).0);
      case CallCommit(h, len) => CommitInv(p, h, len);
      case CallAddRef(h, n) => AddRefInv(p, h, n);
      case CallRelease(h) => ReleaseInv(p, h);
      case CallWrite(h, off, b) => if Live(p, h) { WriteInv(p, View(h.idx, 0, p.cap), off, b); }
      case CallResetStats => SameSlots(p, ResetStats(p));
    }
  }

  ghost function Run(p: Pool, calls: seq<Call>): Pool
    decreases |calls|
  {
    if calls == [] then p else Run(Do(p, calls[0]), calls[1..])
  }

  /** The invariant holds after every run. */
  lemma {:induction false} RunInv(p: Pool, calls: seq<Call>)
    requires PoolInv(p)
    ensures PoolInv(Run(p, calls)) && |Run(p, calls).slots| == |p.slots|
    decreases |calls|
  {
    if calls != [] {
      DoInv(p, calls[0]);
      RunInv(Do(p, calls[0]), calls[1..]);
    }
  }

  // ----- aborts -----

  /** The client broke the contract: a dead or stale handle, too many
      references, or a length beyond the slot. */
  predicate BreaksContract(p: Pool, c: Call) {
    match c
    case CallCommit(h, len) => h.idx < |p.slots| && (!Live(p, h) || len > p.cap)
    case CallAddRef(h, n) => n > 0 && h.idx < |p.slots| && (!Live(p, h) || p.slots[h.idx].refcnt + n > 0xFFFF)
    case CallRelease(h) => h.idx < |p.slots| && !Live(p, h)
    case _ => false
  }

  /** With the guards built in, a call aborts iff it breaks the contract; the
      canary, magic, poison and overflow checks never fire by themselves. */
  lemma AbortsExactly(p: Pool, c: Call)
    requires PoolInv(p) && !p.aborted
    ensures Do(p, c).aborted <==> p.guard && BreaksContract(p, c)
    ensures !c.CallResetStats? ==>
      Do(p, c).guardFailures == if Do(p, c).aborted then (p.guardFailures + 1) % 0x1_0000_0000 else p.guardFailures
  {
    match c {
      case CallAlloc(want) => AllocInv(p, want);
      case CallAcquire(h) => if Live(p, h) { assert SlotOk(p, h.idx); }
      case CallCommit(h, len) => if Live(p, h) { assert SlotOk(p, h.idx); }
      case CallAddRef(h, n) => if Live(p, h) { assert SlotOk(p, h.idx); }
      case CallRelease(h) =>
        if Live(p, h) {
          assert SlotOk(p, h.idx);
          RoomOnFreeList(p, h);
        }
      case CallWrite(h, off, b) =>
      case CallResetStats =>
    }
  }

  // ----- statistics -----

  ghost function Used(p: Pool): int {
    |p.slots| - p.freeTop
  }

  /** The most slots that were in use at once during the run. */
  ghost function MostUsed(p: Pool, calls: seq<Call>): int
    decreases |calls|
  {
    if calls == [] then Used(p)
    else
      var rest := MostUsed(Do(p, calls[0]), calls[1..]);
      if Used(p) > rest then Used(p) else rest
  }

  lemma DoPeak(p: Pool, c: Call)
    requires PoolInv(p) && Used(p) <= p.peak && c != CallResetStats
    ensures var q := Do(p, c); q.peak == if Used(q) > p.peak then Used(q) else p.peak
  {
    if c.CallAlloc? {
      AllocInv(p, c.want);
    } else if c.CallRelease? && Live(p, c.h) {
      RoomOnFreeList(p, c.h);
    }
  }

  /** Between two resets the peak is the larger of where it stood and the most
      slots in use at once. */
  lemma {:induction false} PeakIsMost(p: Pool, calls: seq<Call>)
    requires PoolInv(p) && Used(p) <= p.peak && CallResetStats !in calls
    ensures Run(p, calls).peak == if MostUsed(p, calls) > p.peak then MostUsed(p, calls) else p.peak
    decreases |calls|
  {
    if calls != [] {
      DoPeak(p, calls[0]);
      DoInv(p, calls[0]);
      PeakIsMost(Do(p, calls[0]), calls[1..]);
    }
  }

  // ----- generations -----

  /** How often slot i was freed during the run. */
  ghost function Frees(p: Pool, calls: seq<Call>, i: nat): nat
    decreases |calls|
  {
    if calls == [] then 0
    else (if Freed(p, Do(p, calls[0]), i) then 1 else 0) + Frees(Do(p, calls[0]), calls[1..], i)
  }

  ghost predicate Freed(p: Pool, q: Pool, i: nat) {
    i < |p.slots| && i < |q.slots| && p.slots[i].refcnt > 0 && q.slots[i].refcnt == 0
  }

  lemma DoGen(p: Pool, c: Call, i: nat)
    requires i < |p.slots|
    ensures |Do(p, c).slots| == |p.slots|
    ensures Do(p, c).slots[i].gen == if Freed(p, Do(p, c), i) then Inc16(p.slots[i].gen) else p.slots[i].gen
  {
    if !PoolInv(p) {
      return;
    }
    match c {
      case CallAlloc(want) =>
      case CallAcquire(h) =>
      case CallCommit(h, len) =>
      case CallAddRef(h, n) =>
      case CallRelease(h) =>
        if Live(p, h) {
          assert SlotOk(p, h.idx);
        }
      case CallWrite(h, off, b) =>
      case CallResetStats =>
    }
  }

  /** The generation after n increments of the 16-bit counter. */
  ghost function Advance(g: U16, n: nat): U16
    decreases n
  {
    if n == 0 then g else Advance(Inc16(g), n - 1)
  }

  lemma {:induction false} AdvanceWraps(g: U16, n: nat)
    ensures Advance(g, n) == (g + n) % U16_MOD
    decreases n
  {
    if n > 0 {
      AdvanceWraps(Inc16(g), n - 1);
      assert (Inc16(g) + (n - 1)) % U16_MOD == (g + n) % U16_MOD;
    }
  }

  lemma AdvanceReturns(g: U16, n: nat)
    ensures Advance(g, n) == g <==> n % U16_MOD == 0
    ensures 1 <= n <= 65535 ==> Advance(g, n) != g
  {
    AdvanceWraps(g, n);
    var q, r := n / U16_MOD, n % U16_MOD;
    if g + r < U16_MOD {
      ModUnique(g + n, U16_MOD, q, g + r);
    } else {
      ModUnique(g + n, U16_MOD, q + 1, g + r - U16_MOD);
    }
    if 1 <= n <= 65535 {
      ModUnique(n, U16_MOD, 0, n);
    }
  }

  lemma {:induction false} GenCountsFrees(p: Pool, calls: seq<Call>, i: nat)
    requires i < |p.slots|
    ensures |Run(p, calls).slots| == |p.slots|
    ensures Run(p, calls).slots[i].gen == Advance(p.slots[i].gen, Frees(p, calls, i))
    decreases |calls|
  {
    if calls != [] {
      var q, rest := Do(p, calls[0]), calls[1..];
      DoGen(p, calls[0], i);
      GenCountsFrees(q, rest, i);
      assert Run(p, calls) == Run(q, rest);
      assert Freed(p, q, i) ==> Frees(p, calls, i) == 1 + Frees(q, rest, i);
    }
  }

  /** A handle issued in state p is honoured in a later state iff its slot is in
      use and was freed a multiple of 65536 times in between. So the first 65535
      frees all leave it rejected: acquire fails, and no operation through it
      touches a slot. */
  lemma StaleHandle(p: Pool, calls: seq<Call>, h: Handle)
    requires h.idx < |p.slots| && p.slots[h.idx].gen == h.gen
    ensures var q, frees := Run(p, calls), Frees(p, calls, h.idx);
      && |q.slots| == |p.slots|
      && (Live(q, h) <==> q.slots[h.idx].refcnt > 0 && frees % U16_MOD == 0)
      && (1 <= frees <= 65535 ==> Rejected(q, h))
  {
    GenCountsFrees(p, calls, h.idx);
    AdvanceReturns(h.gen, Frees(p, calls, h.idx));
  }

  ghost predicate Rejected(q: Pool, h: Handle) {
    && Acquire(q, h).1.None?
    && (forall len: nat :: Commit(q, h, len).slots == q.slots)
    && (forall n: U16 :: AddRef(q, h, n).slots == q.slots)
    && Release(q, h).slots == q.slots && Release(q, h).free == q.free
  }

  // ----- packed handles -----

  /** The two halves occupy disjoint bits, so `|` is addition. */
  function Pack(h: Handle): U32 {
    h.idx + h.gen * 0x1_0000
  }

  function Unpack(v: U32): Handle {
    Handle(v % 0x1_0000, v / 0x1_0000)
  }

  lemma UnpackPack(h: Handle)
    ensures Unpack(Pack(h)) == h
  {
  }

  lemma PackRoundTrip(h: Handle, v: U32)
    ensures Unpack(Pack(h)) == h
    ensures Pack(Unpack(v)) == v
    ensures Pack(h) % 0x1_0000 == h.idx && Pack(h) / 0x1_0000 == h.gen
    ensures Pack(h) == 0 <==> h == Handle(0, 0)
    ensures Pack(INVALID) == 0xFFFF
  {
  }

  // ----- the handle that packs to zero is a legitimate one -----

  function Allocs(n: nat): seq<Call> {
    if n == 0 then [] else [CallAlloc(0)] + Allocs(n - 1)
  }

  function Cycles(h: Handle, k: nat): seq<Call>
    decreases k
  {
    if k == 0 then []
    else [CallRelease(h), CallAlloc(0)] + Cycles(Handle(h.idx, Inc16(h.gen)), k - 1)
  }

  lemma {:induction false} RunAppend(p: Pool, a: seq<Call>, b: seq<Call>)
    ensures Run(p, a + b) == Run(Run(p, a), b)
    decreases |a|
  {
    if a == [] {
      assert a + b == b;
    } else {
      RunAppend(Do(p, a[0]), a[1..], b);
      assert (a + b)[1..] == a[1..] + b;
    }
  }

  lemma {:induction false} AllocAll(p: Pool)
    requires PoolInv(p) && !p.aborted && p.freeTop > 0
    requires forall i :: 0 <= i < p.freeTop ==> p.free[i] == i && p.slots[i].gen == 1
    ensures var q := Run(p, Allocs(p.freeTop));
      !q.aborted && Live(q, Handle(0, 1)) && q.slots[0].refcnt == 1
    decreases p.freeTop
  {
    var q := Do(p, CallAlloc(0));
    AllocInv(p, 0);
    DoInv(p, CallAlloc(0));
    AbortsExactly(p, CallAlloc(0));
    assert Allocs(p.freeTop)[1..] == Allocs(p.freeTop - 1);
    assert InFree(p, p.free[p.freeTop - 1]) by { assert p.free[..p.freeTop][p.freeTop - 1] == p.free[p.freeTop - 1]; }
    assert SlotOk(p, p.free[p.freeTop - 1]);
    if p.freeTop > 1 {
      AllocAll(q);
    } else {
      assert Run(q, []) == q;
    }
  }

  /** Freeing a slot and allocating again returns the same slot, one generation on. */
  lemma {:induction false} CycleRun(p: Pool, h: Handle, k: nat)
    requires PoolInv(p) && !p.aborted && Live(p, h) && p.slots[h.idx].refcnt == 1
    ensures var q := Run(p, Cycles(h, k));
      !q.aborted && Live(q, Handle(h.idx, Advance(h.gen, k)))
    decreases k
  {
    if k > 0 {
      var q := Do(p, CallRelease(h));
      DoInv(p, CallRelease(h));
      AbortsExactly(p, CallRelease(h));
      RoomOnFreeList(p, h);
      var r := Do(q, CallAlloc(0));
      DoInv(q, CallAlloc(0));
      AbortsExactly(q, CallAlloc(0));
      AllocInv(q, 0);
      assert q.free[q.freeTop - 1] == h.idx;
      assert InFree(q, h.idx) by { assert q.free[..q.freeTop][q.freeTop - 1] == h.idx; }
      assert SlotOk(q, h.idx);
      assert SlotOk(p, h.idx);
      var h' := Handle(h.idx, Inc16(h.gen));
      CycleRun(r, h', k - 1);
      var calls := Cycles(h, k);
      assert calls[1..][1..] == Cycles(h', k - 1);
      assert calls[0] == CallRelease(h) && calls[1..][0] == CallAlloc(0);
    }
  }

  lemma AfterFrees(p: Pool, k: nat)
    requires 0 < |p.slots| == |p.free| < 0xFFFF && !p.aborted
    requires forall i :: 0 <= i < |p.slots| ==> |p.slots[i].buf| == p.cap
    ensures PoolInv(Init(p))
    ensures var q := Run(Init(p), Allocs(|p.slots|) + Cycles(Handle(0, 1), k));
      !q.aborted && Live(q, Handle(0, Advance(1, k)))
  {
    InitInv(p);
    var full := Run(Init(p), Allocs(|p.slots|));
    RunInv(Init(p), Allocs(|p.slots|));
    AllocAll(Init(p));
    CycleRun(full, Handle(0, 1), k);
    RunAppend(Init(p), Allocs(|p.slots|), Cycles(Handle(0, 1), k));
  }

  ghost predicate Holds(p: Pool, calls: seq<Call>, h: Handle) {
    !Run(p, calls).aborted && Live(Run(p, calls), h)
  }

  /** On every pool the schema guard's test for an invalid handle (packed == 0)
      hits a handle that a disciplined run does hold: slot 0 after k = 65535
      frees, or any k with the same remainder. */
  lemma ZeroHandleIsReachable(p: Pool, k: nat)
    requires 0 < |p.slots| == |p.free| < 0xFFFF && !p.aborted
    requires forall i :: 0 <= i < |p.slots| ==> |p.slots[i].buf| == p.cap
    requires (1 + k) % U16_MOD == 0
    ensures PoolInv(Init(p))
    ensures exists calls: seq<Call> :: Holds(Init(p), calls, Handle(0, 0))
    ensures Pack(Handle(0, 0)) == 0
  {
    AfterFrees(p, k);
    AdvanceWraps(1, k);
    assert Holds(Init(p), Allocs(|p.slots|) + Cycles(Handle(0, 1), k), Handle(0, 0));
  }
}
