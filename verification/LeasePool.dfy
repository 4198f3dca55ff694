/** Fixed pool of reference-counted, generation-stamped slots (core__leasepool).
    The operations as functions on pool values; the class in `LeaseObject`
    performs them in place and is proved to do exactly that. */
module LeasePool {
  import opened Words
  import opened Wrappers

  const CANARY: nat := 0xC0DEF00D
  const MAGIC_FREE: nat := 0xFEE1DEAD
  const MAGIC_USED: nat := 0xC0FFEE01
  const POISON_FREE: Byte := 0xA5
  const POISON_ALLOC: Byte := 0xCC

  datatype Handle = Handle(idx: U16, gen: U16)

  const INVALID := Handle(0xFFFF, 0)

  /** What `lp_acquire` hands out: the slot's buffer, by slot index. */
  datatype View = View(slot: nat, len: nat, cap: nat)

  datatype Slot = Slot(
    gen: U16, refcnt: U16, len: nat, buf: seq<Byte>,
    magic: nat, canaryHead: nat, canaryTail: nat)

  /** `guard` is the build option; `aborted` is set when a guard calls abort(). */
  datatype Pool = Pool(
    guard: bool, cap: nat, slots: seq<Slot>, free: seq<nat>, freeTop: nat,
    allocOk: U32, allocFail: U32, peak: nat, guardFailures: U32, aborted: bool)

  function Fill(n: nat, v: Byte): seq<Byte> {
    seq(n, _ => v)
  }

  predicate Canaries(s: Slot) {
    s.canaryHead == CANARY && s.canaryTail == CANARY
  }

  predicate LooksFree(p: Pool, s: Slot) {
    Canaries(s) && s.magic == MAGIC_FREE && s.buf == Fill(p.cap, POISON_FREE)
  }

  predicate LooksUsed(s: Slot) {
    Canaries(s) && s.magic == MAGIC_USED
  }

  function SetFree(p: Pool, s: Slot): Slot {
    if p.guard then s.(canaryHead := CANARY, canaryTail := CANARY, magic := MAGIC_FREE, buf := Fill(p.cap, POISON_FREE))
    else s
  }

  function SetUsed(p: Pool, s: Slot): Slot {
    if p.guard then s.(canaryHead := CANARY, canaryTail := CANARY, magic := MAGIC_USED, buf := Fill(p.cap, POISON_ALLOC))
    else s
  }

  function GuardFail(p: Pool): Pool {
    if p.guard then p.(guardFailures := Add32(p.guardFailures, 1), aborted := true) else p
  }

  /** The memory layout: one free-list cell per slot, list entries name slots. */
  ghost predicate Shape(p: Pool) {
    && 0 < |p.slots| == |p.free| < 0xFFFF
    && p.freeTop <= |p.slots|
    && forall k :: 0 <= k < p.freeTop ==> p.free[k] < |p.slots|
  }

  predicate Live(p: Pool, h: Handle) {
    h.idx < |p.slots| && p.slots[h.idx].gen == h.gen && p.slots[h.idx].refcnt > 0
  }

  /** Live, and with guards also not damaged: what the calls accept. */
  predicate Usable(p: Pool, h: Handle) {
    Live(p, h) && (p.guard ==> LooksUsed(p.slots[h.idx]))
  }

  // ----- the operations -----

  function Init(p: Pool): Pool {
    p.(slots := seq(|p.slots|, i requires 0 <= i < |p.slots| => SetFree(p, p.slots[i].(gen := 1, refcnt := 0, len := 0))),
       free := seq(|p.slots|, i requires 0 <= i < |p.slots| => i),
       freeTop := |p.slots|, allocOk := 0, allocFail := 0, peak := 0, guardFailures := 0)
  }

  function AllocTry(p: Pool, want: nat): (Pool, Handle)
    requires Shape(p)
  {
    if want > p.cap then (p, INVALID)
    else if p.freeTop == 0 then (p.(allocFail := Add32(p.allocFail, 1)), INVALID)
    else
      var top := p.freeTop - 1;
      var idx := p.free[top];
      var s := p.slots[idx];
      if p.guard && !LooksFree(p, s) then (GuardFail(p.(freeTop := top)), Handle(idx, s.gen))
      else
        var used := |p.slots| - top;
        (p.(freeTop := top,
            slots := p.slots[idx := SetUsed(p, s).(refcnt := 1, len := 0)],
            allocOk := Add32(p.allocOk, 1),
            peak := if used > p.peak then used else p.peak),
         Handle(idx, s.gen))
  }

  function Acquire(p: Pool, h: Handle): (Pool, Option<View>) {
    if !Live(p, h) then (p, None)
    else if p.guard && !LooksUsed(p.slots[h.idx]) then (GuardFail(p), None)
    else (p, Some(View(h.idx, p.slots[h.idx].len, p.cap)))
  }

  function Commit(p: Pool, h: Handle, len: nat): Pool {
    if h.idx >= |p.slots| then p
    else if !Usable(p, h) then GuardFail(p)
    else if len > p.cap && p.guard then GuardFail(p)
    else p.(slots := p.slots[h.idx := p.slots[h.idx].(len := Min(len, p.cap))])
  }

  function AddRef(p: Pool, h: Handle, n: U16): Pool {
    if n == 0 || h.idx >= |p.slots| then p
    else if !Usable(p, h) then GuardFail(p)
    else
      var s := p.slots[h.idx];
      if s.refcnt + n > 0xFFFF then
        if p.guard then GuardFail(p) else p.(slots := p.slots[h.idx := s.(refcnt := 0xFFFF)])
      else p.(slots := p.slots[h.idx := s.(refcnt := s.refcnt + n)])
  }

  function Release(p: Pool, h: Handle): Pool {
    if h.idx >= |p.slots| then p
    else if !Usable(p, h) then GuardFail(p)
    else
      var s := p.slots[h.idx];
      if s.refcnt > 1 then p.(slots := p.slots[h.idx := s.(refcnt := s.refcnt - 1)])
      else
        var q := p.(slots := p.slots[h.idx := SetFree(p, s.(refcnt := 0, len := 0, gen := Inc16(s.gen)))]);
        if p.freeTop >= |p.free| then GuardFail(q)
        else q.(free := p.free[p.freeTop := h.idx], freeTop := p.freeTop + 1)
  }

  /** The holder of a view storing through its pointer. */
  function Write(p: Pool, v: View, off: nat, b: Byte): Pool {
    if v.slot < |p.slots| && off < |p.slots[v.slot].buf| then
      p.(slots := p.slots[v.slot := p.slots[v.slot].(buf := p.slots[v.slot].buf[off := b])])
    else p
  }

  function ResetStats(p: Pool): Pool {
    p.(allocOk := 0, allocFail := 0, guardFailures := 0,
       peak := if |p.slots| >= p.freeTop then |p.slots| - p.freeTop else 0)
  }

  // ----- the invariant -----

  ghost predicate InFree(p: Pool, i: nat)
    requires p.freeTop <= |p.free|
  {
    i in p.free[..p.freeTop]
  }

  ghost predicate SlotOk(p: Pool, i: nat)
    requires p.freeTop <= |p.free| && i < |p.slots|
  {
    var s := p.slots[i];
    && |s.buf| == p.cap
    && (p.guard ==> Canaries(s))
    && (if InFree(p, i) then
          s.refcnt == 0 && s.len == 0 && (p.guard ==> LooksFree(p, s))
        else
          s.refcnt > 0 && s.len <= p.cap && (p.guard ==> s.magic == MAGIC_USED))
  }

  ghost predicate Distinct(a: seq<nat>) {
    forall j, k :: 0 <= j < k < |a| ==> a[j] != a[k]
  }

  ghost predicate PoolInv(p: Pool) {
    && Shape(p)
    && Distinct(p.free[..p.freeTop])
    && forall i: nat :: i < |p.slots| ==> SlotOk(p, i)
  }

  // ----- pigeonhole -----

  ghost function Below(n: nat): (s: set<nat>)
    ensures forall i: nat :: i in s <==> i < n
    ensures |s| == n
  {
    if n == 0 then {} else Below(n - 1) + {n - 1}
  }

  ghost function Members(a: seq<nat>): set<nat> {
    set x | x in a
  }

  lemma {:induction false} MembersSize(a: seq<nat>)
    requires Distinct(a)
    ensures |Members(a)| == |a|
  {
    if a != [] {
      var init, last := a[..|a| - 1], a[|a| - 1];
      MembersSize(init);
      assert a == init + [last] && last !in init;
      assert Members(a) == Members(init) + {last};
    }
  }

  /** Distinct indices below n, one of them missing, are fewer than n. */
  lemma Pigeonhole(a: seq<nat>, n: nat, missing: nat)
    requires Distinct(a) && (forall x :: x in a ==> x < n)
    requires missing < n && missing !in a
    ensures |a| < n
  {
    MembersSize(a);
    assert missing in Below(n);
    Subset(Members(a), Below(n) - {missing});
  }

  lemma {:induction false} Subset(a: set<nat>, b: set<nat>)
    requires a <= b
    ensures |a| <= |b|
    decreases a
  {
    if a != {} {
      var x :| x in a;
      Subset(a - {x}, b - {x});
    }
  }

  /** The overflow branch of `lp_release` is dead. */
  lemma RoomOnFreeList(p: Pool, h: Handle)
    requires PoolInv(p) && Live(p, h)
    ensures p.freeTop < |p.slots|
    ensures !InFree(p, h.idx)
  {
    assert SlotOk(p, h.idx);
    Pigeonhole(p.free[..p.freeTop], |p.slots|, h.idx);
  }

  // ----- every operation keeps the invariant -----

  lemma InitInv(p: Pool)
    requires 0 < |p.slots| == |p.free| < 0xFFFF
    requires forall i :: 0 <= i < |p.slots| ==> |p.slots[i].buf| == p.cap
    ensures PoolInv(Init(p))
  {
    var q := Init(p);
    assert q.free[..q.freeTop] == q.free;
    forall i: nat | i < |q.slots|
      ensures SlotOk(q, i)
    {
      assert q.free[i] == i;
    }
  }

  /** The counters and flags take no part in the invariant. */
  lemma SameSlots(p: Pool, q: Pool)
    requires PoolInv(p)
    requires q.guard == p.guard && q.cap == p.cap && q.slots == p.slots && q.free == p.free && q.freeTop == p.freeTop
    ensures PoolInv(q)
  {
    forall i: nat | i < |q.slots|
      ensures SlotOk(q, i)
    {
      assert SlotOk(p, i);
    }
  }

  lemma AllocInv(p: Pool, want: nat)
    requires PoolInv(p)
    ensures PoolInv(AllocTry(p, want).0)
    ensures AllocTry(p, want).0.aborted == p.aborted
  {
    SameSlots(p, p.(allocFail := Add32(p.allocFail, 1)));
    if want <= p.cap && p.freeTop > 0 {
      var top := p.freeTop - 1;
      var idx := p.free[top];
      var list := p.free[..p.freeTop];
      assert list[top] == idx && list == p.free[..top] + [idx];
      assert SlotOk(p, idx) && InFree(p, idx) && idx !in p.free[..top];
      var q := AllocTry(p, want).0;
      assert q.free[..q.freeTop] == p.free[..top] && Distinct(p.free[..top]);
      forall i: nat | i < |q.slots|
        ensures SlotOk(q, i)
      {
        assert SlotOk(p, i);
        assert InFree(p, i) <==> i == idx || InFree(q, i);
      }
    }
  }

  /** A slot that stays on its side of the free list may change within its bounds. */
  lemma SlotChanged(p: Pool, i: nat, s: Slot)
    requires PoolInv(p) && i < |p.slots|
    requires SlotOk(p.(slots := p.slots[i := s]), i)
    ensures PoolInv(p.(slots := p.slots[i := s]))
  {
    var q := p.(slots := p.slots[i := s]);
    forall k: nat | k < |q.slots|
      ensures SlotOk(q, k)
    {
      assert SlotOk(p, k);
    }
  }

  lemma CommitInv(p: Pool, h: Handle, len: nat)
    requires PoolInv(p)
    ensures PoolInv(Commit(p, h, len))
  {
    if h.idx < |p.slots| {
      assert SlotOk(p, h.idx);
      SlotChanged(p, h.idx, p.slots[h.idx].(len := if Live(p, h) then Min(len, p.cap) else p.slots[h.idx].len));
      SameSlots(p, GuardFail(p));
    }
  }

  lemma AddRefInv(p: Pool, h: Handle, n: U16)
    requires PoolInv(p)
    ensures PoolInv(AddRef(p, h, n))
  {
    if h.idx < |p.slots| && Live(p, h) {
      assert SlotOk(p, h.idx);
      SlotChanged(p, h.idx, p.slots[h.idx].(refcnt := Min(p.slots[h.idx].refcnt + n, 0xFFFF)));
    }
    SameSlots(p, GuardFail(p));
  }

  lemma ReleaseInv(p: Pool, h: Handle)
    requires PoolInv(p)
    ensures PoolInv(Release(p, h))
  {
    SameSlots(p, GuardFail(p));
    if Live(p, h) {
      var s := p.slots[h.idx];
      assert SlotOk(p, h.idx);
      RoomOnFreeList(p, h);
      if s.refcnt > 1 {
        SlotChanged(p, h.idx, s.(refcnt := s.refcnt - 1));
      } else {
        var q := Release(p, h);
        assert q.free[..q.freeTop] == p.free[..p.freeTop] + [h.idx as nat];
        forall i: nat | i < |q.slots|
          ensures SlotOk(q, i)
        {
          assert SlotOk(p, i);
          assert InFree(q, i) <==> i == h.idx || InFree(p, i);
        }
      }
    }
  }

  lemma WriteInv(p: Pool, v: View, off: nat, b: Byte)
    requires PoolInv(p)
    requires v.slot < |p.slots| && p.slots[v.slot].refcnt > 0
    ensures PoolInv(Write(p, v, off, b))
  {
    assert SlotOk(p, v.slot);
    if off < p.cap {
      SlotChanged(p, v.slot, p.slots[v.slot].(buf := p.slots[v.slot].buf[off := b]));
    }
  }

  /** Once every reference is dropped the free list is a permutation of all
      slots: it names each of them, and none twice. */
  lemma AllReclaimed(p: Pool)
    requires PoolInv(p)
    requires forall i :: 0 <= i < |p.slots| ==> p.slots[i].refcnt == 0
    ensures p.freeTop == |p.slots|
    ensures Distinct(p.free) && forall i: nat :: i in p.free <==> i < |p.slots|
  {
    var list := p.free[..p.freeTop];
    forall i: nat | i < |p.slots|
      ensures i in Members(list)
    {
      assert SlotOk(p, i);
    }
    MembersSize(list);
    Subset(Below(|p.slots|), Members(list));
    assert list == p.free;
    forall i: nat
      ensures i in p.free <==> i < |p.slots|
    {
      assert i in Members(list) <==> i in p.free;
    }
  }

  ghost function FreeSlots(p: Pool): set<nat> {
    set i: nat | i < |p.slots| && p.slots[i].refcnt == 0
  }

  ghost function UsedSlots(p: Pool): set<nat> {
    set i: nat | i < |p.slots| && p.slots[i].refcnt > 0
  }

  /** The height of the free list is the number of slots nobody refers to, and
      the rest is the number of slots in use. */
  lemma FreeCounted(p: Pool)
    requires PoolInv(p)
    ensures |FreeSlots(p)| == p.freeTop && |UsedSlots(p)| == |p.slots| - p.freeTop
  {
    var list := p.free[..p.freeTop];
    forall i: nat
      ensures i in FreeSlots(p) <==> i in Members(list)
    {
      assert i < |p.slots| ==> SlotOk(p, i);
    }
    assert FreeSlots(p) == Members(list);
    MembersSize(list);
    assert UsedSlots(p) == Below(|p.slots|) - FreeSlots(p);
    assert FreeSlots(p) <= Below(|p.slots|);
  }

  // ----- what each call does -----

  /** From p to q at most slot i changed. */
  ghost predicate OnlySlot(p: Pool, q: Pool, i: nat) {
    && |q.slots| == |p.slots| && q.cap == p.cap && q.guard == p.guard
    && forall k :: 0 <= k < |p.slots| && k != i ==> q.slots[k] == p.slots[k]
  }

  ghost predicate AllBytes(buf: seq<Byte>, n: nat, v: Byte) {
    |buf| == n && forall k :: 0 <= k < n ==> buf[k] == v
  }

  /** After init every slot is free, at generation 1, and nothing is counted. */
  lemma InitMeans(p: Pool)
    requires 0 < |p.slots| == |p.free| < 0xFFFF
    ensures var q := Init(p);
      && |q.slots| == |p.slots| && q.cap == p.cap && q.guard == p.guard && q.aborted == p.aborted
      && |FreeSlots(q)| == q.freeTop == |p.slots|
      && q.allocOk == q.allocFail == q.peak == q.guardFailures == 0
      && (forall i :: 0 <= i < |q.slots| ==> q.slots[i].refcnt == q.slots[i].len == 0 && q.slots[i].gen == 1)
      && (forall i :: 0 <= i < |q.slots| ==>
            if q.guard then FreeMarks(q, q.slots[i]) else q.slots[i].buf == p.slots[i].buf)
  {
    assert FreeSlots(Init(p)) == Below(|p.slots|);
  }

  /** An allocation succeeds if and only if the request fits a slot and a slot is
      free. It then yields a free slot with one reference and no contents, and
      counts one success; it counts a failure iff a fitting request found none. */
  lemma AllocMeans(p: Pool, want: nat)
    requires PoolInv(p)
    ensures var (q, h) := AllocTry(p, want);
      && (h.idx != 0xFFFF <==> want <= p.cap && FreeSlots(p) != {})
      && (h.idx == 0xFFFF ==>
            && h == Handle(0xFFFF, 0)
            && q == p.(allocFail := (p.allocFail + if want <= p.cap then 1 else 0) % 0x1_0000_0000))
      && (h.idx != 0xFFFF ==>
            && h.idx as nat in FreeSlots(p) && FreeSlots(q) == FreeSlots(p) - {h.idx as nat} && OnlySlot(p, q, h.idx)
            && h.gen == p.slots[h.idx].gen && Live(q, h) && q.slots[h.idx].refcnt == 1 && q.slots[h.idx].len == 0
            && (!p.guard ==> q.slots[h.idx].buf == p.slots[h.idx].buf)
            && (p.guard ==> UsedMarks(q.slots[h.idx]) && AllBytes(q.slots[h.idx].buf, p.cap, 0xCC))
            && q.allocOk == (p.allocOk + 1) % 0x1_0000_0000
            && q.allocFail == p.allocFail && q.guardFailures == p.guardFailures && q.aborted == p.aborted)
  {
    FreeCounted(p);
    if want <= p.cap && p.freeTop > 0 {
      TopIsFree(p);
    }
  }

  /** The top of the free list is a slot nobody refers to. */
  lemma TopIsFree(p: Pool)
    requires PoolInv(p) && p.freeTop > 0
    ensures p.free[p.freeTop - 1] in FreeSlots(p)
    ensures p.guard ==> LooksFree(p, p.slots[p.free[p.freeTop - 1]])
  {
    var idx := p.free[p.freeTop - 1];
    assert p.free[..p.freeTop][p.freeTop - 1] == idx;
    assert SlotOk(p, idx);
  }

  /** A view is granted to the holder of a live handle, and to nobody else. */
  lemma AcquireMeans(p: Pool, h: Handle)
    requires PoolInv(p)
    ensures Acquire(p, h) == (p, if Live(p, h) then Some(View(h.idx, p.slots[h.idx].len, p.cap)) else None)
  {
    if Live(p, h) {
      assert SlotOk(p, h.idx);
    }
  }

  /** A commit sets the length of a live slot and nothing else. Beyond the slot's
      size it is refused where guards are built in and cut to it where not. */
  lemma CommitMeans(p: Pool, h: Handle, len: nat)
    requires PoolInv(p)
    ensures var q := Commit(p, h, len);
      && OnlySlot(p, q, h.idx)
      && (Live(p, h) && (len <= p.cap || !p.guard) ==>
            q == p.(slots := q.slots) && q.slots[h.idx] == p.slots[h.idx].(len := if len <= p.cap then len else p.cap))
      && (!Live(p, h) || (len > p.cap && p.guard) ==> q.slots == p.slots)
  {
    if Live(p, h) {
      assert SlotOk(p, h.idx);
    }
  }

  /** References are added to a live slot. Past 0xFFFF this is refused where
      guards are built in; where not, the count stays at 0xFFFF. */
  lemma AddRefMeans(p: Pool, h: Handle, n: U16)
    requires PoolInv(p)
    ensures var q := AddRef(p, h, n);
      && OnlySlot(p, q, h.idx)
      && (Live(p, h) && p.slots[h.idx].refcnt + n <= 0xFFFF ==>
            q == p.(slots := q.slots) && q.slots[h.idx] == p.slots[h.idx].(refcnt := p.slots[h.idx].refcnt + n))
      && (Live(p, h) && p.slots[h.idx].refcnt + n > 0xFFFF ==>
            if p.guard then q.slots == p.slots
            else q == p.(slots := q.slots) && q.slots[h.idx] == p.slots[h.idx].(refcnt := 0xFFFF))
      && (!Live(p, h) ==> q.slots == p.slots)
  {
    if Live(p, h) {
      assert SlotOk(p, h.idx);
      assert n == 0 ==> p.slots[h.idx := p.slots[h.idx].(refcnt := p.slots[h.idx].refcnt + n)] == p.slots;
    }
  }

  /** A release takes one reference of a live slot. The last one frees the slot,
      which then answers to the next generation only and is the first to be
      allocated again. */
  lemma ReleaseMeans(p: Pool, h: Handle)
    requires PoolInv(p)
    ensures var q := Release(p, h);
      && OnlySlot(p, q, h.idx)
      && (!Live(p, h) ==> q.slots == p.slots)
      && (Live(p, h) && p.slots[h.idx].refcnt > 1 ==>
            q == p.(slots := q.slots) && q.slots[h.idx] == p.slots[h.idx].(refcnt := p.slots[h.idx].refcnt - 1))
      && (Live(p, h) && p.slots[h.idx].refcnt == 1 ==>
            && !Live(q, h) && FreeSlots(q) == FreeSlots(p) + {h.idx as nat}
            && q.slots[h.idx].refcnt == q.slots[h.idx].len == 0 && q.slots[h.idx].gen == (h.gen + 1) % 0x1_0000
            && (if p.guard then FreeMarks(q, q.slots[h.idx]) else q.slots[h.idx].buf == p.slots[h.idx].buf)
            && forall want: nat :: want <= p.cap ==> AllocTry(q, want).1 == Handle(h.idx, q.slots[h.idx].gen))
  {
    ReleaseInv(p, h);
    if Live(p, h) {
      assert SlotOk(p, h.idx);
      RoomOnFreeList(p, h);
    }
  }

  /** A store through a view changes the one byte. */
  lemma WriteMeans(p: Pool, v: View, off: nat, b: Byte)
    requires v.slot < |p.slots| && off < |p.slots[v.slot].buf|
    ensures var q := Write(p, v, off, b);
      && OnlySlot(p, q, v.slot) && q == p.(slots := q.slots)
      && q.slots[v.slot] == p.slots[v.slot].(buf := q.slots[v.slot].buf)
      && |q.slots[v.slot].buf| == |p.slots[v.slot].buf| && q.slots[v.slot].buf[off] == b
      && forall k :: 0 <= k < |p.slots[v.slot].buf| && k != off ==> q.slots[v.slot].buf[k] == p.slots[v.slot].buf[k]
  {
  }

  /** A reset clears the counters; the peak starts again at the slots in use now. */
  lemma ResetMeans(p: Pool)
    requires PoolInv(p)
    ensures var q := ResetStats(p);
      && q.slots == p.slots && q.free == p.free && q.freeTop == p.freeTop && q.aborted == p.aborted
      && q.allocOk == q.allocFail == q.guardFailures == 0 && q.peak == |UsedSlots(p)|
  {
    FreeCounted(p);
  }

  /** What a slot in use must look like in a build with guards, and one on the list. */
  ghost predicate UsedMarks(s: Slot) {
    s.canaryHead == 0xC0DEF00D && s.canaryTail == 0xC0DEF00D && s.magic == 0xC0FFEE01
  }

  ghost predicate FreeMarks(p: Pool, s: Slot) {
    s.canaryHead == 0xC0DEF00D && s.canaryTail == 0xC0DEF00D && s.magic == 0xFEE1DEAD && AllBytes(s.buf, p.cap, 0xA5)
  }

  /** In a build with guards every call through a live handle stops the program if
      a mark of its slot was damaged, and an allocation does if a mark or a byte of
      the slot it takes was. */
  lemma DamageStops(p: Pool, h: Handle, len: nat, n: U16, want: nat)
    requires Shape(p) && p.guard && n > 0
    ensures Live(p, h) && !UsedMarks(p.slots[h.idx]) ==>
      Acquire(p, h).0.aborted && Commit(p, h, len).aborted && AddRef(p, h, n).aborted && Release(p, h).aborted
    ensures want <= p.cap && p.freeTop > 0 && !FreeMarks(p, p.slots[p.free[p.freeTop - 1]]) ==>
      AllocTry(p, want).0.aborted
  {
  }
}
