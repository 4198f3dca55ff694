/** The lease pool in place: the calls on the static arrays, each proved to do
    what the function of the same name does on values, and `lp_check`. */
module LeaseObject {
  import opened Words
  import opened Wrappers
  import opened LeasePool

  class SlotPool {
    const guard: bool
    const cap: nat
    const slots: array<Slot>
    const free: array<nat>
    var freeTop: nat
    var allocOk: U32
    var allocFail: U32
    var peak: nat
    var guardFailures: U32
    var aborted: bool

    /** The value the object stands for. */
    ghost function State(): Pool
      reads this, slots, free
    {
      Pool(guard, cap, slots[..], free[..], freeTop, allocOk, allocFail, peak, guardFailures, aborted)
    }

    ghost predicate Sized()
      reads this
    {
      0 < slots.Length == free.Length < 0xFFFF
    }

    constructor (n: nat, cap: nat, guard: bool)
      requires 0 < n < 0xFFFF
      ensures Sized() && slots.Length == n && this.cap == cap && this.guard == guard
      ensures fresh(slots) && fresh(free)
      ensures !aborted && PoolInv(State())
      ensures forall i :: 0 <= i < n ==> slots[i].gen == 1 && slots[i].refcnt == 0
    {
      this.guard, this.cap := guard, cap;
      slots := new Slot[n](_ => Slot(0, 0, 0, Fill(cap, 0), 0, 0, 0));
      free := new nat[n];
      freeTop, allocOk, allocFail, peak, guardFailures, aborted := 0, 0, 0, 0, 0, false;
      new;
      InitInv(State());
      Init();
    }

    /** `lp_init` */
    method Init()
      requires Sized()
      modifies this, slots, free
      ensures State() == LeasePool.Init(old(State()))
    {
      ghost var was := State();
      freeTop := slots.Length;
      var i := 0;
      while i < slots.Length
        invariant 0 <= i <= slots.Length && freeTop == slots.Length && aborted == was.aborted
        invariant forall k :: 0 <= k < i ==> free[k] == k
        invariant forall k :: 0 <= k < i ==> slots[k] == SetFree(was, was.slots[k].(gen := 1, refcnt := 0, len := 0))
        invariant forall k :: i <= k < slots.Length ==> slots[k] == was.slots[k]
      {
        free[i] := i;
        var s := slots[i].(gen := 1, refcnt := 0, len := 0);
        if guard {
          s := s.(canaryHead := CANARY, canaryTail := CANARY, magic := MAGIC_FREE, buf := Fill(cap, POISON_FREE));
        }
        slots[i] := s;
        i := i + 1;
      }
      allocOk, allocFail, peak, guardFailures := 0, 0, 0, 0;
    }

    /** `lp_guard_fail_`: counts and aborts, where the guards are built in. */
    method GuardFails()
      modifies this
      ensures State() == GuardFail(old(State()))
    {
      if guard {
        guardFailures := Add32(guardFailures, 1);
        aborted := true;
      }
    }

    /** `lp_alloc_try` */
    method AllocTry(want: nat) returns (h: Handle)
      requires Sized() && Shape(State())
      modifies this, slots
      ensures (State(), h) == LeasePool.AllocTry(old(State()), want)
    {
      h := INVALID;
      if want > cap {
        return;
      }
      if freeTop == 0 {
        allocFail := Add32(allocFail, 1);
        return;
      }
      freeTop := freeTop - 1;
      var idx := free[freeTop];
      var s := slots[idx];
      h := Handle(idx, s.gen);
      if guard {
        if !(Canaries(s) && s.magic == MAGIC_FREE && s.buf == Fill(cap, POISON_FREE)) {
          GuardFails();
          return;
        }
        s := s.(canaryHead := CANARY, canaryTail := CANARY, magic := MAGIC_USED, buf := Fill(cap, POISON_ALLOC));
      }
      slots[idx] := s.(refcnt := 1, len := 0);
      allocOk := Add32(allocOk, 1);
      var used := slots.Length - freeTop;
      if used > peak {
        peak := used;
      }
    }

    /** `lp_acquire` */
    method Acquire(h: Handle) returns (view: Option<View>)
      requires Sized()
      modifies this
      ensures (State(), view) == LeasePool.Acquire(old(State()), h)
    {
      view := None;
      if h.idx >= slots.Length {
        return;
      }
      var s := slots[h.idx];
      if s.gen == h.gen && s.refcnt > 0 {
        if guard && !(Canaries(s) && s.magic == MAGIC_USED) {
          GuardFails();
          return;
        }
        view := Some(View(h.idx, s.len, cap));
      }
    }

    /** `lp_commit` */
    method Commit(h: Handle, len: nat)
      requires Sized()
      modifies this, slots
      ensures State() == LeasePool.Commit(old(State()), h, len)
    {
      if h.idx >= slots.Length {
        return;
      }
      var s := slots[h.idx];
      if s.gen != h.gen || s.refcnt == 0 || (guard && !(Canaries(s) && s.magic == MAGIC_USED)) {
        GuardFails();
        return;
      }
      var n := len;
      if n > cap {
        if guard {
          GuardFails();
          return;
        }
        n := cap;
      }
      slots[h.idx] := s.(len := n);
    }

    /** `lp_addref_n` */
    method AddRef(h: Handle, n: U16)
      requires Sized()
      modifies this, slots
      ensures State() == LeasePool.AddRef(old(State()), h, n)
    {
      if n == 0 || h.idx >= slots.Length {
        return;
      }
      var s := slots[h.idx];
      if s.gen != h.gen || s.refcnt == 0 || (guard && !(Canaries(s) && s.magic == MAGIC_USED)) {
        GuardFails();
        return;
      }
      if s.refcnt + n > 0xFFFF {
        if guard {
          GuardFails();
          return;
        }
        slots[h.idx] := s.(refcnt := 0xFFFF);
        return;
      }
      slots[h.idx] := s.(refcnt := s.refcnt + n);
    }

    /** `lp_release` */
    method Release(h: Handle)
      requires Sized() && Shape(State())
      modifies this, slots, free
      ensures State() == LeasePool.Release(old(State()), h)
    {
      if h.idx >= slots.Length {
        return;
      }
      var s := slots[h.idx];
      if s.gen != h.gen || s.refcnt == 0 || (guard && !(Canaries(s) && s.magic == MAGIC_USED)) {
        GuardFails();
        return;
      }
      s := s.(refcnt := s.refcnt - 1);
      if s.refcnt == 0 {
        s := s.(len := 0, gen := Inc16(s.gen));
        if guard {
          s := s.(canaryHead := CANARY, canaryTail := CANARY, magic := MAGIC_FREE, buf := Fill(cap, POISON_FREE));
        }
        slots[h.idx] := s;
        if freeTop >= slots.Length {
          GuardFails();
        } else {
          free[freeTop] := h.idx;
          freeTop := freeTop + 1;
        }
      } else {
        slots[h.idx] := s;
      }
    }

    /** `lp_reset_stats` */
    method ResetStats()
      requires Sized() && Shape(State())
      modifies this
      ensures State() == LeasePool.ResetStats(old(State()))
    {
      allocOk, allocFail, guardFailures := 0, 0, 0;
      peak := slots.Length - freeTop;
    }

    /** `lp_get_stats`: slots free and in use, and the counters. */
    method GetStats() returns (total: nat, free_: nat, used: int, peakUsed: nat, ok: U32, drops: U32, guards: U32)
      requires Sized()
      ensures PoolInv(State()) ==> free_ == |FreeSlots(State())| && used == |UsedSlots(State())|
      ensures total == slots.Length == free_ + used
      ensures peakUsed == peak && ok == allocOk && drops == allocFail && guards == guardFailures
    {
      total, free_, used := slots.Length, freeTop, slots.Length - freeTop;
      peakUsed, ok, drops, guards := peak, allocOk, allocFail, guardFailures;
      if PoolInv(State()) {
        FreeCounted(State());
      }
    }

    /** The rules of one slot, on or off the free list. */
    method CheckSlot(s: Slot, listed: bool) returns (issues: nat)
      ensures issues == BrokenRules(guard, cap, s, listed)
    {
      issues := 0;
      if guard && (s.canaryHead != CANARY || s.canaryTail != CANARY) {
        issues := issues + 1;
      }
      if listed {
        if s.refcnt != 0 {
          issues := issues + 1;
        }
        if s.len != 0 {
          issues := issues + 1;
        }
        if guard && s.magic != MAGIC_FREE {
          issues := issues + 1;
        }
      } else {
        if s.refcnt == 0 {
          issues := issues + 1;
        }
        if s.len > cap {
          issues := issues + 1;
        }
        if guard && s.magic != MAGIC_USED {
          issues := issues + 1;
        }
      }
    }

    /** Marks the slots that the free list names, counting bad entries. */
    method CheckList(top: nat, inFree: array<bool>) returns (issues: nat)
      requires Sized() && top <= slots.Length == inFree.Length
      requires forall k :: 0 <= k < inFree.Length ==> !inFree[k]
      modifies inFree
      ensures issues == ListIssues(State(), top)
      ensures forall k :: 0 <= k < inFree.Length ==> (inFree[k] <==> k in free[..top])
    {
      issues := 0;
      ghost var p := State();
      var i := 0;
      while i < top
        invariant 0 <= i <= top
        invariant issues == ListIssues(p, i)
        invariant forall k :: 0 <= k < inFree.Length ==> (inFree[k] <==> k in p.free[..i])
      {
        var idx := free[i];
        assert p.free[..i + 1] == p.free[..i] + [idx];
        if idx >= slots.Length {
          issues := issues + 1;
        } else {
          if inFree[idx] {
            issues := issues + 1;
          }
          inFree[idx] := true;
        }
        i := i + 1;
      }
    }

    /** `lp_check` on any memory contents whatever. */
    method Check() returns (issues: nat)
      requires Sized()
      ensures issues == Issues(State())
    {
      issues := 0;
      var top := freeTop;
      if top > slots.Length {
        issues := issues + 1;
        top := slots.Length;
      }
      ghost var p := State();
      var inFree := new bool[slots.Length](_ => false);
      var bad := CheckList(top, inFree);
      issues := issues + bad;
      assert free[..top] == p.free[..ListTop(p)];
      ghost var before := issues;
      var i := 0;
      while i < slots.Length
        invariant 0 <= i <= slots.Length
        invariant forall k :: 0 <= k < inFree.Length ==> (inFree[k] <==> k in p.free[..ListTop(p)])
        invariant issues == before + SlotsIssues(p, i)
      {
        var n := CheckSlot(slots[i], inFree[i]);
        assert n == SlotIssues(p, i);
        issues := issues + n;
        i := i + 1;
      }
    }
  }

  // ----- what lp_check counts -----

  ghost function ListTop(p: Pool): nat {
    Min(p.freeTop, |p.slots|)
  }

  /** Bad entries among the first k of the free list: out of range, or repeated. */
  ghost function ListIssues(p: Pool, k: nat): nat
    requires k <= |p.free|
  {
    if k == 0 then 0
    else
      var idx := p.free[k - 1];
      ListIssues(p, k - 1) + if idx >= |p.slots| || idx in p.free[..k - 1] then 1 else 0
  }

  ghost function BrokenRules(guard: bool, cap: nat, s: Slot, listed: bool): nat {
    One(guard && !Canaries(s))
    + if listed then One(s.refcnt != 0) + One(s.len != 0) + One(guard && s.magic != MAGIC_FREE)
      else One(s.refcnt == 0) + One(s.len > cap) + One(guard && s.magic != MAGIC_USED)
  }

  /** Broken rules of slot i. */
  ghost function SlotIssues(p: Pool, i: nat): nat
    requires i < |p.slots| == |p.free|
  {
    BrokenRules(p.guard, p.cap, p.slots[i], i in p.free[..ListTop(p)])
  }

  ghost function SlotsIssues(p: Pool, k: nat): nat
    requires k <= |p.slots| == |p.free|
  {
    if k == 0 then 0 else SlotsIssues(p, k - 1) + SlotIssues(p, k - 1)
  }

  ghost function Issues(p: Pool): nat
    requires |p.slots| == |p.free|
  {
    (if p.freeTop > |p.slots| then 1 else 0) + ListIssues(p, ListTop(p)) + SlotsIssues(p, |p.slots|)
  }

  /** The part of the pool invariant that `lp_check` looks at: everything but the
      buffer contents. */
  ghost predicate Checked(p: Pool)
    requires |p.slots| == |p.free|
  {
    && p.freeTop <= |p.slots|
    && (forall k :: 0 <= k < p.freeTop ==> p.free[k] < |p.slots|)
    && Distinct(p.free[..p.freeTop])
    && forall i: nat :: i < |p.slots| ==> SlotIssues(p, i) == 0
  }

  lemma {:induction false} ListClean(p: Pool, k: nat)
    requires k <= |p.free|
    ensures ListIssues(p, k) == 0 <==> (forall j :: 0 <= j < k ==> p.free[j] < |p.slots|) && Distinct(p.free[..k])
  {
    if k > 0 {
      ListClean(p, k - 1);
      var list, init := p.free[..k], p.free[..k - 1];
      assert list == init + [p.free[k - 1]];
      if Distinct(init) && p.free[k - 1] !in init {
        assert Distinct(list);
      }
      if Distinct(list) {
        assert Distinct(init);
        forall j | 0 <= j < k - 1
          ensures init[j] != p.free[k - 1]
        {
          assert list[j] != list[k - 1];
        }
      }
    }
  }

  lemma {:induction false} SlotsClean(p: Pool, k: nat)
    requires k <= |p.slots| == |p.free|
    ensures SlotsIssues(p, k) == 0 <==> forall i: nat :: i < k ==> SlotIssues(p, i) == 0
  {
    if k > 0 {
      SlotsClean(p, k - 1);
    }
  }

  /** `lp_check` is sound and complete: on any state, reachable or corrupted, it
      finds nothing iff the checked invariant holds. */
  lemma CheckIsExact(p: Pool)
    requires |p.slots| == |p.free|
    ensures Issues(p) == 0 <==> Checked(p)
  {
    ListClean(p, ListTop(p));
    SlotsClean(p, |p.slots|);
  }

  /** What the check leaves out: buffer sizes, and the poison in free slots. */
  ghost predicate Unobserved(p: Pool) {
    forall i :: 0 <= i < |p.slots| ==>
      && |p.slots[i].buf| == p.cap
      && (p.guard && p.slots[i].refcnt == 0 ==> p.slots[i].buf == Fill(p.cap, POISON_FREE))
  }

  /** The pool invariant is exactly what the check establishes plus what it
      leaves out; so it returns 0 in every state the pool reaches. */
  lemma CheckedInvariant(p: Pool)
    requires 0 < |p.slots| == |p.free| < 0xFFFF
    ensures PoolInv(p) <==> Issues(p) == 0 && Unobserved(p)
  {
    CheckIsExact(p);
    if PoolInv(p) {
      forall i: nat | i < |p.slots|
        ensures SlotIssues(p, i) == 0
        ensures |p.slots[i].buf| == p.cap
        ensures p.guard && p.slots[i].refcnt == 0 ==> p.slots[i].buf == Fill(p.cap, POISON_FREE)
      {
        assert SlotOk(p, i);
      }
    }
    if Checked(p) && Unobserved(p) {
      forall i: nat | i < |p.slots|
        ensures SlotOk(p, i)
      {
        assert SlotIssues(p, i) == 0;
      }
    }
  }
}
