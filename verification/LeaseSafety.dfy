/** Ownership is conserved in every interleaving: reference counts are exactly
    the references held, so nothing is freed early or lost, receivers always
    get the posted bytes, and the counters account for every post. */
module LeaseSafety {
  import opened Words
  import opened Wrappers
  import opened LeasePool
  import opened LeaseLedger
  import opened EventBus
  import opened LeaseMachine
  import LeaseRuns

  /** The slot of a posted handle still carries what was posted. */
  ghost predicate Intact(p: Pool, posted: map<Handle, Payload>, h: Handle) {
    h in posted ==>
      h.idx < |p.slots| && p.slots[h.idx].len == posted[h].len && p.slots[h.idx].buf == posted[h].buf
  }

  /** So far every live subscriber was either delivered to or counted as failed. */
  ghost predicate LoopOk(s: Sys, l: Loop) {
    && l.i <= |l.local| && l.fo.delivered + l.fo.enqFail == LiveCount(l.local[..l.i])
    && l.msg.ev < |s.schema| && SubsOk(l.local, |s.queues|)
  }

  ghost predicate LeaseLoop(s: Sys, h: Handle, l: Loop) {
    h in s.posted && LoopOk(s, l) && l.msg.kind == LEASE && LeaseRuns.Unpack(l.msg.a0) == h
  }

  ghost predicate AtLive(l: Loop) {
    l.i < |l.local| && l.local[l.i].q.Some?
  }

  ghost predicate DoneOk(schema: seq<Meta>, d: Done) {
    d.ev < |schema| && d.fo.delivered + d.fo.enqFail == LiveCount(d.local)
  }

  ghost predicate PhaseOk(s: Sys, refs: Refs, ph: Phase) {
    match ph
    case Idle => true
    case Filling(h) => h !in s.posted && refs[h] == 1
    case Fan(h, l) => LeaseLoop(s, h, l)
    case Sending(h, l) => LeaseLoop(s, h, l) && AtLive(l)
    case Undoing(h, l) => LeaseLoop(s, h, l) && AtLive(l)
    case Plain(_, l) => LoopOk(s, l) && l.msg.kind != LEASE
    case Counting(d) => DoneOk(s.schema, d)
    case Holding(h) => h in s.posted
    case Reading(h, v) => h in s.posted && v == View(h.idx, s.posted[h].len, s.pool.cap)
  }

  ghost predicate QueueOk(posted: map<Handle, Payload>, q: Queue) {
    && |q.items| <= q.cap && 0 < q.cap
    && forall k :: 0 <= k < |q.items| && q.items[k].kind == LEASE ==> LeaseRuns.Unpack(q.items[k].a0) in posted
  }

  ghost predicate CountersOk(s: Sys) {
    && s.counters == Tally(|s.schema|, s.done)
    && forall i :: 0 <= i < |s.done| ==> DoneOk(s.schema, s.done[i])
  }

  ghost predicate Sound(s: Sys, refs: Refs) {
    && Ledger(s.pool, refs)
    && (forall t :: 0 <= t < |s.tasks| ==> PhaseOk(s, refs, s.tasks[t]))
    && (forall q :: 0 <= q < |s.queues| ==> QueueOk(s.posted, s.queues[q]))
    && (forall h :: h in refs ==> Intact(s.pool, s.posted, h))
    && SubsOk(s.subs, |s.queues|)
    && CountersOk(s)
  }

  /** Every reference that the pool still counts: those held, and the lost ones. */
  ghost function Owed(s: Sys): Refs {
    Held(s.tasks, s.queues) + s.lost
  }

  ghost predicate Inv(s: Sys) {
    Sound(s, Owed(s))
  }

  // ----- one step -----

  /** What a step of task t on a posted handle, or on none, leaves as it was. */
  ghost predicate OneTask(s: Sys, u: Sys, t: nat, refs: Refs, left: Refs) {
    && t < |s.tasks| == |u.tasks| && |u.queues| == |s.queues|
    && u == s.(pool := u.pool, queues := u.queues, tasks := s.tasks[t := u.tasks[t]])
    && u.pool.cap == s.pool.cap
    && (forall h :: h !in s.posted ==> left[h] == refs[h])
    && (forall h :: h in left ==> h in refs && SameContent(s.pool, u.pool, h))
  }

  lemma Settle(s: Sys, u: Sys, t: nat, refs: Refs, left: Refs)
    requires Sound(s, refs) && OneTask(s, u, t, refs, left)
    requires Ledger(u.pool, left) && PhaseOk(u, left, u.tasks[t])
    requires forall q :: 0 <= q < |u.queues| ==> QueueOk(u.posted, u.queues[q])
    ensures Sound(u, left)
  {
    forall k | 0 <= k < |u.tasks|
      ensures PhaseOk(u, left, u.tasks[k])
    {
      assert k != t ==> u.tasks[k] == s.tasks[k] && PhaseOk(s, refs, s.tasks[k]);
    }
    forall h | h in left
      ensures Intact(u.pool, u.posted, h)
    {
      assert Intact(s.pool, s.posted, h);
    }
  }

  lemma SamePool(p: Pool, refs: Refs)
    requires Ledger(p, refs)
    ensures forall h :: h in refs ==> SameContent(p, p, h)
  {
    forall h | h in refs
      ensures SameContent(p, p, h)
    {
      CountAt(p, refs, h);
    }
  }

  lemma NextLive(l: Loop)
    requires l.i < |l.local|
    ensures LiveCount(l.local[..l.i + 1]) == LiveCount(l.local[..l.i]) + if l.local[l.i].q.Some? then 1 else 0
  {
    assert l.local[..l.i + 1][..l.i] == l.local[..l.i];
  }

  /** Every reference a task or a queue shows is among refs. */
  ghost predicate Covered(s: Sys, refs: Refs) {
    && (forall t :: 0 <= t < |s.tasks| ==> PhaseRefs(s.tasks[t]) <= refs)
    && (forall q :: 0 <= q < |s.queues| ==> ItemRefs(s.queues[q].items) <= refs)
  }

  ghost predicate OnlyFiller(s: Sys, t: nat, h: Handle) {
    forall k :: 0 <= k < |s.tasks| && k != t ==> s.tasks[k] != Filling(h)
  }

  lemma FanEnd(s: Sys, refs: Refs, t: nat, h: Handle, l: Loop)
    requires Sound(s, refs) && t < |s.tasks| && s.tasks[t] == Fan(h, l) && h in refs && l.i >= |l.local|
    ensures Sound(Put(s.(pool := Release(s.pool, h)), t, Ended(l)), refs - multiset{h})
  {
    assert PhaseOk(s, refs, s.tasks[t]);
    assert l.local[..l.i] == l.local;
    ReleaseOk(s.pool, refs, h);
    Settle(s, Put(s.(pool := Release(s.pool, h)), t, Ended(l)), t, refs, refs - multiset{h});
  }

  lemma FanAdd(s: Sys, refs: Refs, t: nat, h: Handle, l: Loop)
    requires Sound(s, refs) && t < |s.tasks| && s.tasks[t] == Fan(h, l) && h in refs && refs[h] < 0xFFFF && AtLive(l)
    ensures Sound(Put(s.(pool := AddRef(s.pool, h, 1)), t, Sending(h, l)), refs + multiset{h})
  {
    assert PhaseOk(s, refs, s.tasks[t]);
    AddRefOk(s.pool, refs, h);
    assert forall k :: k in refs + multiset{h} ==> k in refs;
    Settle(s, Put(s.(pool := AddRef(s.pool, h, 1)), t, Sending(h, l)), t, refs, refs + multiset{h});
  }

  lemma Undo(s: Sys, refs: Refs, t: nat, h: Handle, l: Loop)
    requires Sound(s, refs) && t < |s.tasks| && s.tasks[t] == Undoing(h, l) && h in refs
    ensures Sound(Put(s.(pool := Release(s.pool, h)), t, Fan(h, Miss(l))), refs - multiset{h})
  {
    assert PhaseOk(s, refs, s.tasks[t]);
    NextLive(l);
    ReleaseOk(s.pool, refs, h);
    Settle(s, Put(s.(pool := Release(s.pool, h)), t, Fan(h, Miss(l))), t, refs, refs - multiset{h});
  }

  /** A step that touches neither the pool nor a queue. */
  lemma Quiet(s: Sys, refs: Refs, t: nat, ph: Phase)
    requires Sound(s, refs) && t < |s.tasks| && PhaseOk(s, refs, ph)
    ensures Sound(Put(s, t, ph), refs)
  {
    SamePool(s.pool, refs);
    Settle(s, Put(s, t, ph), t, refs, refs);
  }

  lemma Enqueued(s: Sys, refs: Refs, t: nat, q: nat, m: Msg, ph: Phase)
    requires Sound(s, refs) && t < |s.tasks| && q < |s.queues| && !Full(s.queues[q]) && PhaseOk(s, refs, ph)
    requires m.kind == LEASE ==> LeaseRuns.Unpack(m.a0) in s.posted
    ensures Sound(Put(s.(queues := s.queues[q := Send(s.queues[q], m)]), t, ph), refs)
  {
    var u := Put(s.(queues := s.queues[q := Send(s.queues[q], m)]), t, ph);
    SamePool(s.pool, refs);
    assert PhaseOk(u, refs, ph);
    assert QueueOk(s.posted, s.queues[q]);
    Settle(s, u, t, refs, refs);
  }

  lemma Dequeued(s: Sys, refs: Refs, t: nat, q: nat)
    requires Sound(s, refs) && t < |s.tasks| && q < |s.queues| && s.queues[q].items != []
    ensures var items := s.queues[q].items; var h := LeaseRuns.Unpack(items[0].a0);
      Sound(Put(s.(queues := s.queues[q := s.queues[q].(items := items[1..])]), t,
                if items[0].kind == LEASE then Holding(h) else Idle), refs)
  {
    var items := s.queues[q].items;
    var u := Put(s.(queues := s.queues[q := s.queues[q].(items := items[1..])]), t,
                 if items[0].kind == LEASE then Holding(LeaseRuns.Unpack(items[0].a0)) else Idle);
    SamePool(s.pool, refs);
    assert QueueOk(s.posted, s.queues[q]);
    assert QueueOk(u.posted, u.queues[q]);
    Settle(s, u, t, refs, refs);
  }

  lemma Dropped(s: Sys, refs: Refs, t: nat, h: Handle)
    requires Sound(s, refs) && t < |s.tasks| && h in refs
    requires h in s.posted || (refs[h] == 1 && OnlyFiller(s, t, h))
    ensures Sound(Put(s.(pool := Release(s.pool, h)), t, Idle), refs - multiset{h})
  {
    var u, left := Put(s.(pool := Release(s.pool, h)), t, Idle), refs - multiset{h};
    ReleaseOk(s.pool, refs, h);
    forall k | 0 <= k < |u.tasks|
      ensures PhaseOk(u, left, u.tasks[k])
    {
      assert k != t ==> u.tasks[k] == s.tasks[k] && PhaseOk(s, refs, s.tasks[k]);
    }
    forall k | k in left
      ensures Intact(u.pool, u.posted, k)
    {
      assert Intact(s.pool, s.posted, k);
    }
  }

  lemma Counted(s: Sys, refs: Refs, t: nat)
    requires Sound(s, refs) && t < |s.tasks| && s.tasks[t].Counting?
    ensures var d := s.tasks[t].done;
      Sound(Put(s.(counters := Count(s.counters, d.ev, d.fo), done := s.done + [d]), t, Idle), refs)
  {
    var d := s.tasks[t].done;
    var u := Put(s.(counters := Count(s.counters, d.ev, d.fo), done := s.done + [d]), t, Idle);
    assert PhaseOk(s, refs, s.tasks[t]);
    assert u.done[..|s.done|] == s.done;
    forall k | 0 <= k < |u.tasks|
      ensures PhaseOk(u, refs, u.tasks[k])
    {
      assert k != t ==> u.tasks[k] == s.tasks[k] && PhaseOk(s, refs, s.tasks[k]);
    }
  }

  lemma NotAllocated(s: Sys, refs: Refs, t: nat, want: nat)
    requires Sound(s, refs) && t < |s.tasks| && s.tasks[t].Idle? && AllocTry(s.pool, want).1.idx == 0xFFFF
    ensures Sound(s.(pool := AllocTry(s.pool, want).0), refs)
  {
    var p := AllocTry(s.pool, want).0;
    AllocOk(s.pool, refs, want);
    assert Put(s.(pool := p), t, Idle).tasks == s.tasks;
    SamePool(s.pool, refs);
    Settle(s, s.(pool := p), t, refs, refs);
  }

  lemma Allocated(s: Sys, refs: Refs, t: nat, want: nat)
    requires Sound(s, refs) && Covered(s, refs) && t < |s.tasks| && AllocTry(s.pool, want).1.idx != 0xFFFF
    ensures var (p, h) := AllocTry(s.pool, want);
      h !in refs && Sound(Put(s.(pool := p, posted := s.posted - {h}), t, Filling(h)), refs + multiset{h})
  {
    var (p, h) := AllocTry(s.pool, want);
    AllocOk(s.pool, refs, want);
    var u, more := Put(s.(pool := p, posted := s.posted - {h}), t, Filling(h)), refs + multiset{h};
    forall k | 0 <= k < |u.tasks|
      ensures PhaseOk(u, more, u.tasks[k])
    {
      assert k != t ==> u.tasks[k] == s.tasks[k] && PhaseOk(s, refs, s.tasks[k]) && PhaseRefs(s.tasks[k]) <= refs;
    }
    forall q | 0 <= q < |u.queues|
      ensures QueueOk(u.posted, u.queues[q])
    {
      assert QueueOk(s.posted, s.queues[q]) && ItemRefs(s.queues[q].items) <= refs;
      ItemsHeld(s.queues[q].items);
    }
    forall k | k in more
      ensures Intact(u.pool, u.posted, k)
    {
      assert k in refs ==> Intact(s.pool, s.posted, k);
    }
  }

  lemma {:induction false} ItemsHeld(items: seq<Msg>)
    ensures forall k :: 0 <= k < |items| && items[k].kind == LEASE ==> LeaseRuns.Unpack(items[k].a0) in ItemRefs(items)
  {
    if items != [] {
      ItemsHeld(items[..|items| - 1]);
    }
  }

  /** The owner of an unposted lease changes its contents. */
  lemma Filled(s: Sys, refs: Refs, t: nat, p: Pool)
    requires Sound(s, refs) && t < |s.tasks| && s.tasks[t].Filling?
    requires Ledger(p, refs) && p.cap == s.pool.cap
    requires forall k :: k in refs && k != s.tasks[t].h ==> SameContent(s.pool, p, k)
    ensures Sound(s.(pool := p), refs)
  {
    assert PhaseOk(s, refs, s.tasks[t]);
    forall k | 0 <= k < |s.tasks|
      ensures PhaseOk(s.(pool := p), refs, s.tasks[k])
    {
      assert PhaseOk(s, refs, s.tasks[k]);
    }
    forall k | k in refs
      ensures Intact(p, s.posted, k)
    {
      assert Intact(s.pool, s.posted, k);
    }
  }

  lemma Started(s: Sys, refs: Refs, t: nat, m: Msg)
    requires Sound(s, refs) && t < |s.tasks| && s.tasks[t].Filling? && s.tasks[t].h in refs
    requires OnlyFiller(s, t, s.tasks[t].h)
    requires m.ev < |s.schema| && m.kind == LEASE && LeaseRuns.Unpack(m.a0) == s.tasks[t].h
    ensures s.tasks[t].h.idx < |s.pool.slots|
    ensures Sound(Begin(s, t, s.tasks[t].h, m), refs)
  {
    var h := s.tasks[t].h;
    CountAt(s.pool, refs, h);
    var u := Begin(s, t, h, m);
    assert PhaseOk(s, refs, s.tasks[t]);
    assert s.subs[..0] == [];
    forall k | 0 <= k < |u.tasks|
      ensures PhaseOk(u, refs, u.tasks[k])
    {
      assert k != t ==> u.tasks[k] == s.tasks[k] && PhaseOk(s, refs, s.tasks[k]);
    }
    forall q | 0 <= q < |u.queues|
      ensures QueueOk(u.posted, u.queues[q])
    {
      assert QueueOk(s.posted, s.queues[q]);
    }
    forall k | k in refs
      ensures Intact(u.pool, u.posted, k)
    {
      assert Intact(s.pool, s.posted, k);
    }
  }

  // ----- every step -----

  lemma HeldCovers(s: Sys)
    ensures Covered(s, Owed(s))
  {
    var ts, qs := TaskStakes(s.tasks), QueueStakes(s.queues);
    forall t | 0 <= t < |s.tasks|
      ensures PhaseRefs(s.tasks[t]) <= Owed(s)
    {
      TotalHas(ts, t);
      assert ts[t] == PhaseRefs(s.tasks[t]);
    }
    forall q | 0 <= q < |s.queues|
      ensures ItemRefs(s.queues[q].items) <= Owed(s)
    {
      TotalHas(qs, q);
      assert qs[q] == ItemRefs(s.queues[q].items);
    }
  }

  /** The owner of an unposted lease is its only holder. */
  lemma Alone(s: Sys, t: nat)
    requires t < |s.tasks| && s.tasks[t].Filling? && Owed(s)[s.tasks[t].h] == 1
    ensures OnlyFiller(s, t, s.tasks[t].h)
  {
    var h, ts := s.tasks[t].h, TaskStakes(s.tasks);
    forall k | 0 <= k < |s.tasks| && k != t
      ensures s.tasks[k] != Filling(h)
    {
      if s.tasks[k] == Filling(h) {
        assert h in ts[t] && h in ts[k];
        TotalTwo(ts, t, k, h);
      }
    }
  }

  lemma Conclude(u: Sys, refs: Refs)
    requires Sound(u, refs) && Owed(u) == refs
    ensures Inv(u)
  {
  }

  lemma Without(a: Refs, lost: Refs, h: Handle)
    requires h in a
    ensures (a - multiset{h}) + lost == (a + lost) - multiset{h}
  {
  }

  lemma Plus(a: Refs, lost: Refs, x: Refs)
    ensures (a + x) + lost == (a + lost) + x
  {
  }

  /** Task t gave back one reference. */
  lemma GaveBack(s: Sys, p: Pool, t: nat, ph: Phase)
    requires t < |s.tasks| && Shares(s.tasks[t]) == Shares(ph) + 1
    requires Shares(ph) > 0 ==> Lease(ph) == Lease(s.tasks[t])
    requires Sound(Put(s.(pool := p), t, ph), Owed(s) - multiset{Lease(s.tasks[t])})
    ensures Inv(Put(s.(pool := p), t, ph))
  {
    LessOwed(s, p, t, ph);
    Conclude(Put(s.(pool := p), t, ph), Owed(s) - multiset{Lease(s.tasks[t])});
  }

  lemma LessOwed(s: Sys, p: Pool, t: nat, ph: Phase)
    requires t < |s.tasks| && Shares(s.tasks[t]) == Shares(ph) + 1
    requires Shares(ph) > 0 ==> Lease(ph) == Lease(s.tasks[t])
    ensures Owed(Put(s.(pool := p), t, ph)) == Owed(s) - multiset{Lease(s.tasks[t])}
  {
    Holds(s.tasks, s.queues, t);
    HeldLess(s.tasks, s.queues, t, ph);
    Without(Held(s.tasks, s.queues), s.lost, Lease(s.tasks[t]));
  }

  /** Task t took one reference. */
  lemma Took(s: Sys, p: Pool, posted: map<Handle, Payload>, t: nat, ph: Phase)
    requires t < |s.tasks| && Shares(ph) == Shares(s.tasks[t]) + 1
    requires Shares(s.tasks[t]) > 0 ==> Lease(ph) == Lease(s.tasks[t])
    requires Sound(Put(s.(pool := p, posted := posted), t, ph), Owed(s) + multiset{Lease(ph)})
    ensures Inv(Put(s.(pool := p, posted := posted), t, ph))
  {
    MoreOwed(s, p, posted, t, ph);
    Conclude(Put(s.(pool := p, posted := posted), t, ph), Owed(s) + multiset{Lease(ph)});
  }

  lemma MoreOwed(s: Sys, p: Pool, posted: map<Handle, Payload>, t: nat, ph: Phase)
    requires t < |s.tasks| && Shares(ph) == Shares(s.tasks[t]) + 1
    requires Shares(s.tasks[t]) > 0 ==> Lease(ph) == Lease(s.tasks[t])
    ensures Owed(Put(s.(pool := p, posted := posted), t, ph)) == Owed(s) + multiset{Lease(ph)}
  {
    HeldMore(s.tasks, s.queues, t, ph);
    Plus(Held(s.tasks, s.queues), s.lost, multiset{Lease(ph)});
  }

  /** What a task holds is among what is owed. */
  lemma OwedTo(s: Sys, t: nat)
    requires t < |s.tasks| && Shares(s.tasks[t]) > 0
    ensures Lease(s.tasks[t]) in Owed(s)
  {
    Holds(s.tasks, s.queues, t);
  }

  lemma FanShares(h: Handle, l: Loop)
    ensures Shares(Fan(h, l)) == 1 && Shares(Sending(h, l)) == 2 && Shares(Undoing(h, l)) == 2 && Shares(Ended(l)) == 0
    ensures Lease(Fan(h, l)) == Lease(Sending(h, l)) == Lease(Undoing(h, l)) == h
  {
  }

  lemma FanEndKeeps(s: Sys, t: nat, h: Handle, l: Loop)
    requires Inv(s) && t < |s.tasks| && s.tasks[t] == Fan(h, l) && l.i >= |l.local|
    ensures Inv(Put(s.(pool := Release(s.pool, h)), t, Ended(l)))
  {
    FanShares(h, l);
    OwedTo(s, t);
    FanEnd(s, Owed(s), t, h, l);
    GaveBack(s, Release(s.pool, h), t, Ended(l));
  }

  lemma FanAddKeeps(s: Sys, t: nat, h: Handle, l: Loop)
    requires Inv(s) && t < |s.tasks| && s.tasks[t] == Fan(h, l) && AtLive(l) && Owed(s)[h] < 0xFFFF
    ensures Inv(Put(s.(pool := AddRef(s.pool, h, 1)), t, Sending(h, l)))
  {
    FanShares(h, l);
    OwedTo(s, t);
    FanAdd(s, Owed(s), t, h, l);
    Took(s, AddRef(s.pool, h, 1), s.posted, t, Sending(h, l));
  }

  lemma UndoKeeps(s: Sys, t: nat, h: Handle, l: Loop)
    requires Inv(s) && t < |s.tasks| && s.tasks[t] == Undoing(h, l)
    ensures Inv(Put(s.(pool := Release(s.pool, h)), t, Fan(h, Miss(l))))
  {
    FanShares(h, l);
    FanShares(h, Miss(l));
    OwedTo(s, t);
    Undo(s, Owed(s), t, h, l);
    GaveBack(s, Release(s.pool, h), t, Fan(h, Miss(l)));
  }

  lemma QuietKeeps(s: Sys, t: nat, ph: Phase)
    requires Inv(s) && t < |s.tasks| && Lease(ph) == Lease(s.tasks[t]) && Shares(ph) == Shares(s.tasks[t])
    requires PhaseOk(s, Owed(s), ph)
    ensures Inv(Put(s, t, ph))
  {
    HeldSame(s.tasks, s.queues, t, ph);
    Quiet(s, Owed(s), t, ph);
  }

  lemma EnqueuedKeeps(s: Sys, t: nat, q: nat, m: Msg, ph: Phase)
    requires Inv(s) && t < |s.tasks| && q < |s.queues| && !Full(s.queues[q])
    requires PhaseOk(s, Owed(s), ph) && PhaseRefs(s.tasks[t]) == PhaseRefs(ph) + MsgRefs(m)
    requires m.kind == LEASE ==> LeaseRuns.Unpack(m.a0) in s.posted
    ensures Inv(Put(s.(queues := s.queues[q := Send(s.queues[q], m)]), t, ph))
  {
    Enqueued(s, Owed(s), t, q, m, ph);
    Appended(s.queues[q].items, m);
    HeldPassed(s.tasks, s.queues, t, ph, q, Send(s.queues[q], m));
  }

  /** What the invariant says about the loop state after each outcome. */
  lemma NextOk(s: Sys, l: Loop)
    requires LoopOk(s, l) && l.i < |l.local|
    ensures l.local[l.i].q.None? ==> LoopOk(s, Skip(l))
    ensures l.local[l.i].q.Some? ==> LoopOk(s, Hit(l)) && LoopOk(s, Miss(l))
    ensures l.local[l.i].q.Some? ==> l.local[l.i].q.value < |s.queues|
  {
    NextLive(l);
  }

  lemma SendRefs(h: Handle, l: Loop)
    requires l.msg.kind == LEASE && LeaseRuns.Unpack(l.msg.a0) == h
    ensures PhaseRefs(Sending(h, l)) == PhaseRefs(Fan(h, Hit(l))) + MsgRefs(l.msg)
  {
  }

  lemma TakeRefs(items: seq<Msg>, ph: Phase)
    requires items != []
    requires ph == if items[0].kind == LEASE then Holding(LeaseRuns.Unpack(items[0].a0)) else Idle
    ensures PhaseRefs(ph) + ItemRefs(items[1..]) == PhaseRefs(Idle) + ItemRefs(items)
  {
    Removed(items);
  }

  lemma SentKeeps(s: Sys, t: nat, h: Handle, l: Loop)
    requires Inv(s) && t < |s.tasks| && s.tasks[t] == Sending(h, l)
    requires LeaseLoop(s, h, l) && AtLive(l) && !Full(s.queues[l.local[l.i].q.value])
    ensures var q := l.local[l.i].q.value;
      Inv(Put(s.(queues := s.queues[q := Send(s.queues[q], l.msg)]), t, Fan(h, Hit(l))))
  {
    NextOk(s, l);
    SendRefs(h, l);
    EnqueuedKeeps(s, t, l.local[l.i].q.value, l.msg, Fan(h, Hit(l)));
  }

  /** The next addref of task t, if that is its next step, does not pass 0xFFFF. */
  ghost predicate AddFits(s: Sys, t: nat) {
    t < |s.tasks| && s.tasks[t].Fan? && AtLive(s.tasks[t].lp) && s.tasks[t].h.idx < |s.pool.slots| ==>
      s.pool.slots[s.tasks[t].h.idx].refcnt < 0xFFFF
  }

  lemma FanKeeps(s: Sys, t: nat)
    requires Inv(s) && t < |s.tasks| && s.tasks[t].Fan? && AddFits(s, t)
    ensures Continue(s, t).Some? && Inv(Continue(s, t).value)
  {
    var h, l := s.tasks[t].h, s.tasks[t].lp;
    assert PhaseOk(s, Owed(s), s.tasks[t]);
    if l.i >= |l.local| {
      FanEndKeeps(s, t, h, l);
    } else if l.local[l.i].q.None? {
      NextOk(s, l);
      QuietKeeps(s, t, Fan(h, Skip(l)));
    } else {
      Holds(s.tasks, s.queues, t);
      CountAt(s.pool, Owed(s), h);
      FanAddKeeps(s, t, h, l);
    }
  }

  lemma SendKeeps(s: Sys, t: nat)
    requires Inv(s) && t < |s.tasks| && s.tasks[t].Sending?
    ensures Continue(s, t).Some? && Inv(Continue(s, t).value)
  {
    var h, l := s.tasks[t].h, s.tasks[t].lp;
    assert PhaseOk(s, Owed(s), s.tasks[t]);
    NextOk(s, l);
    if Full(s.queues[l.local[l.i].q.value]) {
      QuietKeeps(s, t, Undoing(h, l));
    } else {
      SentKeeps(s, t, h, l);
    }
  }

  lemma PlainQuietKeeps(s: Sys, t: nat, qos: Qos, l: Loop)
    requires Inv(s) && t < |s.tasks| && s.tasks[t] == Plain(qos, l)
    requires LoopOk(s, l) && l.msg.kind != LEASE && !AtLive(l)
    ensures Continue(s, t).Some? && Inv(Continue(s, t).value)
  {
    var ph := if l.i < |l.local| then Plain(qos, Skip(l)) else Ended(l);
    if l.i < |l.local| {
      NextOk(s, l);
    } else {
      assert l.local[..l.i] == l.local;
    }
    assert Continue(s, t) == Some(Put(s, t, ph));
    QuietKeeps(s, t, ph);
  }

  lemma PlainFullKeeps(s: Sys, t: nat, qos: Qos, l: Loop)
    requires Inv(s) && t < |s.tasks| && s.tasks[t] == Plain(qos, l)
    requires LoopOk(s, l) && l.msg.kind != LEASE && AtLive(l) && Full(s.queues[l.local[l.i].q.value])
    requires !Overwrites(qos, l)
    ensures Continue(s, t).Some? && Inv(Continue(s, t).value)
  {
    NextOk(s, l);
    assert Continue(s, t) == Some(Put(s, t, Plain(qos, Miss(l))));
    QuietKeeps(s, t, Plain(qos, Miss(l)));
  }

  lemma PlainSendKeeps(s: Sys, t: nat, qos: Qos, l: Loop)
    requires Inv(s) && t < |s.tasks| && s.tasks[t] == Plain(qos, l)
    requires LoopOk(s, l) && l.msg.kind != LEASE && AtLive(l) && !Full(s.queues[l.local[l.i].q.value])
    requires !Overwrites(qos, l)
    ensures Continue(s, t).Some? && Inv(Continue(s, t).value)
  {
    NextOk(s, l);
    var q := l.local[l.i].q.value;
    EnqueuedKeeps(s, t, q, l.msg, Plain(qos, Hit(l)));
    assert Continue(s, t) == Some(Put(s.(queues := s.queues[q := Send(s.queues[q], l.msg)]), t, Plain(qos, Hit(l))));
  }

  /** The next send of this fan-out replaces what a queue of depth 1 holds. */
  ghost predicate Overwrites(qos: Qos, l: Loop) {
    AtLive(l) && qos == REPLACE_LAST && l.local[l.i].depth == 1
  }

  function Replaced(s: Sys, t: nat, q: nat, m: Msg, ph: Phase): Sys
    requires t < |s.tasks| && q < |s.queues|
  {
    Put(s.(queues := s.queues[q := Overwrite(s.queues[q], m)], lost := s.lost + ItemRefs(s.queues[q].items)), t, ph)
  }

  lemma ReplacedSound(s: Sys, refs: Refs, t: nat, q: nat, m: Msg, ph: Phase)
    requires Sound(s, refs) && t < |s.tasks| && q < |s.queues| && PhaseOk(s, refs, ph) && m.kind != LEASE
    ensures Sound(Replaced(s, t, q, m, ph), refs)
  {
    var u := Replaced(s, t, q, m, ph);
    assert QueueOk(s.posted, s.queues[q]);
    forall k | 0 <= k < |u.tasks|
      ensures PhaseOk(u, refs, u.tasks[k])
    {
      assert k != t ==> u.tasks[k] == s.tasks[k] && PhaseOk(s, refs, s.tasks[k]);
    }
  }

  /** Overwriting loses the references of the messages thrown away, no more. */
  lemma ReplacedKeeps(s: Sys, t: nat, q: nat, m: Msg, ph: Phase)
    requires Inv(s) && t < |s.tasks| && q < |s.queues| && PhaseOk(s, Owed(s), ph) && m.kind != LEASE
    requires Lease(ph) == Lease(s.tasks[t]) && Shares(ph) == Shares(s.tasks[t])
    ensures Inv(Replaced(s, t, q, m, ph))
  {
    var to, u := Overwrite(s.queues[q], m), Replaced(s, t, q, m, ph);
    ReplacedSound(s, Owed(s), t, q, m, ph);
    Thrown(s.tasks, s.queues, t, q, m, ph);
    Moved(Held(u.tasks, u.queues), ItemRefs(s.queues[q].items), Held(s.tasks, s.queues), s.lost);
    Conclude(u, Owed(s));
  }

  lemma Thrown(tasks: seq<Phase>, queues: seq<Queue>, t: nat, q: nat, m: Msg, ph: Phase)
    requires t < |tasks| && Lease(ph) == Lease(tasks[t]) && Shares(ph) == Shares(tasks[t])
    requires q < |queues| && m.kind != LEASE
    ensures Held(tasks[t := ph], queues[q := Overwrite(queues[q], m)]) + ItemRefs(queues[q].items) == Held(tasks, queues)
  {
    var to := Overwrite(queues[q], m);
    QueueMoved(tasks, queues, q, to);
    HeldSame(tasks, queues[q := to], t, ph);
    assert to.items[..0] == [];
    assert ItemRefs(to.items) == multiset{};
  }

  lemma Moved(a: Refs, x: Refs, b: Refs, lost: Refs)
    requires a + x == b
    ensures a + (lost + x) == b + lost
  {
  }

  lemma PlainOverKeeps(s: Sys, t: nat, qos: Qos, l: Loop)
    requires Inv(s) && t < |s.tasks| && s.tasks[t] == Plain(qos, l)
    requires LoopOk(s, l) && l.msg.kind != LEASE && Overwrites(qos, l)
    ensures Continue(s, t).Some? && Inv(Continue(s, t).value)
  {
    NextOk(s, l);
    var q := l.local[l.i].q.value;
    ReplacedKeeps(s, t, q, l.msg, Plain(qos, Hit(l)));
    assert Continue(s, t) == Some(Replaced(s, t, q, l.msg, Plain(qos, Hit(l))));
  }

  lemma PlainKeeps(s: Sys, t: nat)
    requires Inv(s) && t < |s.tasks| && s.tasks[t].Plain?
    ensures Continue(s, t).Some? && Inv(Continue(s, t).value)
  {
    var l, qos := s.tasks[t].lp, s.tasks[t].qos;
    assert PhaseOk(s, Owed(s), s.tasks[t]);
    if !AtLive(l) {
      PlainQuietKeeps(s, t, qos, l);
    } else if Overwrites(qos, l) {
      PlainOverKeeps(s, t, qos, l);
    } else if Full(s.queues[l.local[l.i].q.value]) {
      PlainFullKeeps(s, t, qos, l);
    } else {
      PlainSendKeeps(s, t, qos, l);
    }
  }

  lemma CountKeeps(s: Sys, t: nat)
    requires Inv(s) && t < |s.tasks| && s.tasks[t].Counting?
    ensures Continue(s, t).Some? && Inv(Continue(s, t).value)
  {
    Counted(s, Owed(s), t);
    HeldSame(s.tasks, s.queues, t, Idle);
  }

  lemma AdvanceKeeps(s: Sys, t: nat)
    requires Inv(s) && t < |s.tasks| && Continue(s, t).Some? && AddFits(s, t)
    ensures Inv(Continue(s, t).value)
  {
    match s.tasks[t] {
      case Fan(_, _) => FanKeeps(s, t);
      case Sending(_, _) => SendKeeps(s, t);
      case Undoing(h, l) => UndoKeeps(s, t, h, l);
      case Plain(_, _) => PlainKeeps(s, t);
      case Counting(_) => CountKeeps(s, t);
      case _ =>
    }
  }

  lemma WriteKeeps(s: Sys, t: nat, off: nat, b: Byte)
    requires Inv(s) && t < |s.tasks| && s.tasks[t].Filling?
    ensures Inv(s.(pool := Write(s.pool, View(s.tasks[t].h.idx, 0, s.pool.cap), off, b)))
  {
    var refs, h := Owed(s), s.tasks[t].h;
    Holds(s.tasks, s.queues, t);
    WriteOk(s.pool, refs, h, off, b);
    Filled(s, refs, t, Write(s.pool, View(h.idx, 0, s.pool.cap), off, b));
  }

  lemma CommitKeeps(s: Sys, t: nat, len: nat)
    requires Inv(s) && t < |s.tasks| && s.tasks[t].Filling? && len <= s.pool.cap
    ensures Inv(s.(pool := LeasePool.Commit(s.pool, s.tasks[t].h, len)))
  {
    var refs, h := Owed(s), s.tasks[t].h;
    Holds(s.tasks, s.queues, t);
    CommitOk(s.pool, refs, h, len);
    Filled(s, refs, t, LeasePool.Commit(s.pool, h, len));
  }

  lemma MayDrop(s: Sys, t: nat)
    requires Inv(s) && t < |s.tasks| && (s.tasks[t].Filling? || s.tasks[t].Holding? || s.tasks[t].Reading?)
    ensures var h := s.tasks[t].h;
      h in s.posted || (Owed(s)[h] == 1 && OnlyFiller(s, t, h))
  {
    assert PhaseOk(s, Owed(s), s.tasks[t]);
    if s.tasks[t].Filling? {
      Alone(s, t);
    }
  }

  lemma HolderDrops(s: Sys, t: nat, h: Handle)
    requires Inv(s) && t < |s.tasks| && Shares(s.tasks[t]) == 1 && Lease(s.tasks[t]) == h
    requires h in s.posted || (Owed(s)[h] == 1 && OnlyFiller(s, t, h))
    ensures Inv(Put(s.(pool := Release(s.pool, h)), t, Idle))
  {
    Holds(s.tasks, s.queues, t);
    Dropped(s, Owed(s), t, h);
    GaveBack(s, Release(s.pool, h), t, Idle);
  }

  /** Giving up an unposted lease, or dropping a received one. */
  lemma DropKeeps(s: Sys, t: nat)
    requires Inv(s) && t < |s.tasks| && (s.tasks[t].Filling? || s.tasks[t].Holding? || s.tasks[t].Reading?)
    ensures Inv(Put(s.(pool := Release(s.pool, s.tasks[t].h)), t, Idle))
  {
    MayDrop(s, t);
    HolderDrops(s, t, s.tasks[t].h);
  }

  lemma BeginKeeps(s: Sys, t: nat, m: Msg)
    requires Inv(s) && t < |s.tasks| && s.tasks[t].Filling?
    requires m.ev < |s.schema| && m.kind == LEASE && LeaseRuns.Unpack(m.a0) == s.tasks[t].h
    ensures s.tasks[t].h.idx < |s.pool.slots| && Inv(Begin(s, t, s.tasks[t].h, m))
  {
    var refs, h := Owed(s), s.tasks[t].h;
    assert PhaseOk(s, refs, s.tasks[t]);
    Alone(s, t);
    Holds(s.tasks, s.queues, t);
    Started(s, refs, t, m);
    HeldSame(s.tasks, s.queues, t, Fan(h, Loop(m, s.subs, 0, Fanout(0, 0))));
  }

  lemma StartKeeps(s: Sys, t: nat, ev: nat, said: U16)
    requires Inv(s) && t < |s.tasks| && s.tasks[t].Filling? && LeaseAccepted(s.schema, ev, s.tasks[t].h)
    ensures s.tasks[t].h.idx < |s.pool.slots| && Inv(StartLease(s, t, s.tasks[t].h, ev, said))
  {
    LeaseRuns.UnpackPack(s.tasks[t].h);
    BeginKeeps(s, t, Msg(ev, LEASE, LeaseRuns.Pack(s.tasks[t].h), said));
  }

  lemma PostKeeps(s: Sys, t: nat, ev: nat, a0: U32, a1: U32)
    requires Inv(s) && t < |s.tasks| && s.tasks[t].Idle? && PlainAccepted(s.schema, ev, a0, a1)
    ensures Inv(Put(s, t, Plain(s.schema[ev].qos, Loop(Msg(ev, s.schema[ev].kind, a0, a1), s.subs, 0, Fanout(0, 0)))))
  {
    assert s.subs[..0] == [];
    QuietKeeps(s, t, Plain(s.schema[ev].qos, Loop(Msg(ev, s.schema[ev].kind, a0, a1), s.subs, 0, Fanout(0, 0))));
  }

  lemma DequeueKeeps(s: Sys, t: nat, q: nat)
    requires Inv(s) && t < |s.tasks| && s.tasks[t].Idle? && q < |s.queues| && s.queues[q].items != []
    ensures var items := s.queues[q].items; var h := LeaseRuns.Unpack(items[0].a0);
      Inv(Put(s.(queues := s.queues[q := s.queues[q].(items := items[1..])]), t,
              if items[0].kind == LEASE then Holding(h) else Idle))
  {
    var items := s.queues[q].items;
    var to := s.queues[q].(items := items[1..]);
    var ph := if items[0].kind == LEASE then Holding(LeaseRuns.Unpack(items[0].a0)) else Idle;
    Dequeued(s, Owed(s), t, q);
    TakeRefs(items, ph);
    HeldPassed(s.tasks, s.queues, t, ph, q, to);
  }

  /** A receiver's `lp_acquire` succeeds, with the length and the bytes that were posted. */
  lemma ReceiverSucceeds(s: Sys, t: nat)
    requires Inv(s) && t < |s.tasks| && s.tasks[t].Holding?
    ensures var h := s.tasks[t].h;
      && h in s.posted && h.idx < |s.pool.slots|
      && Acquire(s.pool, h) == (s.pool, Some(View(h.idx, s.posted[h].len, s.pool.cap)))
      && s.pool.slots[h.idx].buf == s.posted[h].buf
  {
    var refs, h := Owed(s), s.tasks[t].h;
    assert PhaseOk(s, refs, s.tasks[t]);
    Holds(s.tasks, s.queues, t);
    AcquireOk(s.pool, refs, h);
    CountAt(s.pool, refs, h);
    assert Intact(s.pool, s.posted, h);
  }

  lemma OpenKeeps(s: Sys, t: nat)
    requires Inv(s) && t < |s.tasks| && s.tasks[t].Holding?
    ensures var h := s.tasks[t].h;
      h in s.posted && Inv(Put(s, t, Reading(h, View(h.idx, s.posted[h].len, s.pool.cap))))
  {
    var h := s.tasks[t].h;
    assert PhaseOk(s, Owed(s), s.tasks[t]);
    QuietKeeps(s, t, Reading(h, View(h.idx, s.posted[h].len, s.pool.cap)));
  }

  lemma AllocKeeps(s: Sys, t: nat, want: nat)
    requires Inv(s) && t < |s.tasks| && s.tasks[t].Idle?
    ensures var (p, h) := AllocTry(s.pool, want);
      if h.idx == 0xFFFF then Inv(s.(pool := p))
      else Inv(Put(s.(pool := p, posted := s.posted - {h}), t, Filling(h)))
  {
    var (p, h) := AllocTry(s.pool, want);
    if h.idx == 0xFFFF {
      NotAllocated(s, Owed(s), t, want);
    } else {
      AllocatedKeeps(s, t, want, p, h);
    }
  }

  lemma AllocatedKeeps(s: Sys, t: nat, want: nat, p: Pool, h: Handle)
    requires Inv(s) && t < |s.tasks| && s.tasks[t].Idle? && (p, h) == AllocTry(s.pool, want) && h.idx != 0xFFFF
    ensures Inv(Put(s.(pool := p, posted := s.posted - {h}), t, Filling(h)))
  {
    AllocatedSound(s, t, want, p, h);
    FillingShares(h);
    Took(s, p, s.posted - {h}, t, Filling(h));
  }

  lemma AllocatedSound(s: Sys, t: nat, want: nat, p: Pool, h: Handle)
    requires Inv(s) && t < |s.tasks| && s.tasks[t].Idle? && (p, h) == AllocTry(s.pool, want) && h.idx != 0xFFFF
    ensures Sound(Put(s.(pool := p, posted := s.posted - {h}), t, Filling(h)), Owed(s) + multiset{h})
  {
    HeldCovers(s);
    Allocated(s, Owed(s), t, want);
  }

  lemma FillingShares(h: Handle)
    ensures Shares(Idle) == 0 && Shares(Filling(h)) == 1 && Lease(Filling(h)) == h
  {
  }
}
