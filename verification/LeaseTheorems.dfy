/** The lease broadcast over whole runs: what every run of disciplined posters
    and receivers guarantees, and what a queue of depth 1 breaks. */
module LeaseTheorems {
  import opened Words
  import opened Wrappers
  import opened LeasePool
  import opened LeaseLedger
  import opened EventBus
  import opened LeaseMachine
  import opened LeaseSafety
  import LeaseRuns
  import Runs

  lemma JoinSound(s: Sys, refs: Refs, d: nat)
    requires Sound(s, refs) && d > 0
    ensures Sound(s.(subs := s.subs + [Sub(Some(|s.queues|), d % U16_MOD)], queues := s.queues + [Queue(d, [])]), refs)
  {
    var u := s.(subs := s.subs + [Sub(Some(|s.queues|), d % U16_MOD)], queues := s.queues + [Queue(d, [])]);
    forall t | 0 <= t < |u.tasks|
      ensures PhaseOk(u, refs, u.tasks[t])
    {
      assert PhaseOk(s, refs, s.tasks[t]);
    }
  }

  lemma JoinOwes(s: Sys, u: Sys, d: nat)
    requires u.tasks == s.tasks && u.lost == s.lost && u.queues == s.queues + [Queue(d, [])]
    ensures Owed(u) == Owed(s)
  {
    assert QueueStakes(u.queues) == QueueStakes(s.queues) + [multiset{}];
    assert QueueStakes(u.queues)[..|s.queues|] == QueueStakes(s.queues);
  }

  lemma JoinKeeps(s: Sys, d: nat)
    requires Inv(s) && d > 0
    ensures Inv(s.(subs := s.subs + [Sub(Some(|s.queues|), d % U16_MOD)], queues := s.queues + [Queue(d, [])]))
  {
    var u := s.(subs := s.subs + [Sub(Some(|s.queues|), d % U16_MOD)], queues := s.queues + [Queue(d, [])]);
    JoinSound(s, Owed(s), d);
    JoinOwes(s, u, d);
    Conclude(u, Owed(s));
  }

  lemma JoinStepKeeps(s: Sys, depth: nat)
    requires Inv(s)
    ensures Step(s, Join(depth)).Some? ==> Inv(Step(s, Join(depth)).value)
  {
    if |s.subs| < s.maxSubs {
      JoinKeeps(s, DepthOf(depth));
    } else {
      assert Step(s, Join(depth)).Some? ==> Step(s, Join(depth)).value == s;
    }
  }

  lemma LeaveKeeps(s: Sys, q: nat)
    requires Inv(s)
    ensures Inv(s.(subs := Unsubscribe(Table(s.subs, s.queues), q).subs))
  {
    var u := s.(subs := Unsubscribe(Table(s.subs, s.queues), q).subs);
    var refs := Owed(s);
    forall t | 0 <= t < |u.tasks|
      ensures PhaseOk(u, refs, u.tasks[t])
    {
      assert PhaseOk(s, refs, s.tasks[t]);
    }
    Conclude(u, refs);
  }

  lemma ResetKeeps(s: Sys)
    requires Inv(s)
    ensures Inv(s.(counters := Reset(|s.schema|), done := []))
  {
    var u := s.(counters := Reset(|s.schema|), done := []);
    var refs := Owed(s);
    forall t | 0 <= t < |u.tasks|
      ensures PhaseOk(u, refs, u.tasks[t])
    {
      assert PhaseOk(s, refs, s.tasks[t]);
    }
    Conclude(u, refs);
  }

  lemma HaltKeeps(s: Sys)
    requires Inv(s)
    ensures Inv(s.(halted := true))
  {
    var u := s.(halted := true);
    var refs := Owed(s);
    forall t | 0 <= t < |u.tasks|
      ensures PhaseOk(u, refs, u.tasks[t])
    {
      assert PhaseOk(s, refs, s.tasks[t]);
    }
    Conclude(u, refs);
  }

  lemma PostLeaseKeeps(s: Sys, t: nat, ev: nat, said: U16)
    requires Inv(s) && t < |s.tasks| && s.tasks[t].Filling? && TaskStep(s, PostLease(t, ev, said)).Some?
    ensures Inv(TaskStep(s, PostLease(t, ev, said)).value)
  {
    assert TaskStep(s, PostLease(t, ev, said)) == Some(StartLease(s, t, s.tasks[t].h, ev, said));
    if LeaseAccepted(s.schema, ev, s.tasks[t].h) {
      StartKeeps(s, t, ev, said);
    } else {
      HaltKeeps(s);
    }
  }

  lemma FillerKeeps(s: Sys, a: Act)
    requires Inv(s) && !a.Join? && !a.Leave? && !a.ResetCounters? && a.t < |s.tasks|
    requires !a.Advance? && s.tasks[a.t].Filling? && TaskStep(s, a).Some?
    ensures Inv(TaskStep(s, a).value)
  {
    match a {
      case Store(t, off, b) => WriteKeeps(s, t, off, b);
      case SetLen(t, len) => CommitKeeps(s, t, len);
      case GiveUp(t) => DropKeeps(s, t);
      case PostLease(t, ev, said) => PostLeaseKeeps(s, t, ev, said);
      case _ =>
    }
  }

  lemma PostStepKeeps(s: Sys, t: nat, ev: nat, a0: U32, a1: U32)
    requires Inv(s) && t < |s.tasks| && s.tasks[t].Idle?
    ensures TaskStep(s, Post(t, ev, a0, a1)).Some? && Inv(TaskStep(s, Post(t, ev, a0, a1)).value)
  {
    if PlainAccepted(s.schema, ev, a0, a1) {
      PostKeeps(s, t, ev, a0, a1);
    } else {
      HaltKeeps(s);
    }
  }

  lemma IdleKeeps(s: Sys, a: Act)
    requires Inv(s) && !a.Join? && !a.Leave? && !a.ResetCounters? && a.t < |s.tasks|
    requires !a.Advance? && s.tasks[a.t].Idle? && TaskStep(s, a).Some?
    ensures Inv(TaskStep(s, a).value)
  {
    match a {
      case Alloc(t, want) => AllocKeeps(s, t, want);
      case Post(t, ev, a0, a1) => PostStepKeeps(s, t, ev, a0, a1);
      case Dequeue(t, q) => DequeueKeeps(s, t, q);
      case _ =>
    }
  }

  lemma OpenStepKeeps(s: Sys, t: nat)
    requires Inv(s) && t < |s.tasks| && s.tasks[t].Holding?
    ensures TaskStep(s, Open(t)).Some? && Inv(TaskStep(s, Open(t)).value)
  {
    ReceiverSucceeds(s, t);
    OpenKeeps(s, t);
    OpenStep(s, t, s.tasks[t].h);
  }

  lemma OpenStep(s: Sys, t: nat, h: Handle)
    requires Shape(s.pool) && t < |s.tasks| && s.tasks[t] == Holding(h) && h in s.posted
    requires Acquire(s.pool, h) == (s.pool, Some(View(h.idx, s.posted[h].len, s.pool.cap)))
    ensures TaskStep(s, Open(t)) == Some(Put(s, t, Reading(h, View(h.idx, s.posted[h].len, s.pool.cap))))
  {
  }

  lemma ReceiverKeeps(s: Sys, a: Act)
    requires Inv(s) && (a.Open? || a.Drop?) && a.t < |s.tasks|
    requires (s.tasks[a.t].Holding? || s.tasks[a.t].Reading?) && TaskStep(s, a).Some?
    ensures Inv(TaskStep(s, a).value)
  {
    match a {
      case Open(t) => OpenStepKeeps(s, t);
      case Drop(t) => DropKeeps(s, t);
    }
  }

  lemma OtherKeeps(s: Sys, a: Act)
    requires Inv(s) && !a.Join? && !a.Leave? && !a.ResetCounters? && !a.Advance? && a.t < |s.tasks|
    requires TaskStep(s, a).Some?
    ensures Inv(TaskStep(s, a).value)
  {
    if s.tasks[a.t].Filling? {
      FillerKeeps(s, a);
    } else if s.tasks[a.t].Idle? {
      IdleKeeps(s, a);
    } else {
      ReceiverKeeps(s, a);
    }
  }

  /** The assumption on every run: no addref is made on a count of 0xFFFF. */
  ghost predicate NoOverflow(s: Sys, a: Act) {
    a.Advance? ==> AddFits(s, a.t)
  }

  /** Every step keeps the invariant. */
  lemma StepKeeps(s: Sys, a: Act)
    requires Inv(s) && NoOverflow(s, a) && Step(s, a).Some?
    ensures Inv(Step(s, a).value)
  {
    match a {
      case Join(depth) => JoinStepKeeps(s, depth);
      case Leave(q) => LeaveKeeps(s, q);
      case ResetCounters => ResetKeeps(s);
      case Advance(t) => AdvanceKeeps(s, t);
      case _ => OtherKeeps(s, a);
    }
  }

  // ----- runs -----

  ghost predicate Takes(s: Sys, a: Act, u: Sys) {
    Shape(s.pool) && NoOverflow(s, a) && Step(s, a) == Some(u)
  }

  ghost predicate Follows(s: Sys, u: Sys) {
    exists a :: Takes(s, a, u)
  }

  ghost function Next(): (Sys, Sys) -> bool {
    (s: Sys, u: Sys) => Follows(s, u)
  }

  /** Each state follows from the one before; depth 1 is allowed. */
  ghost predicate IsRun(run: seq<Sys>) {
    Runs.IsRun(Next(), run)
  }

  lemma FollowKeeps(s: Sys, u: Sys)
    requires Inv(s) && Follows(s, u)
    ensures Inv(u)
  {
    var a :| Takes(s, a, u);
    StepKeeps(s, a);
  }

  ghost function Always(): Sys -> bool {
    (s: Sys) => Inv(s)
  }

  lemma NextKeeps()
    ensures Runs.Keeps(Next(), Always())
  {
    forall s, u | Next()(s, u) && Always()(s)
      ensures Always()(u)
    {
      FollowKeeps(s, u);
    }
  }

  lemma RunKeeps(run: seq<Sys>)
    requires IsRun(run) && Inv(run[0])
    ensures Inv(run[|run| - 1])
  {
    NextKeeps();
    Runs.Invariant(Next(), Always(), run, |run| - 1);
  }

  /** The machine under that assumption. */
  ghost function Careful(): (Sys, Act) -> Option<Sys> {
    (s: Sys, a: Act) => if Shape(s.pool) && NoOverflow(s, a) then Step(s, a) else None
  }

  lemma CarefulPreserves()
    ensures Runs.Preserves(Careful(), Always())
  {
    forall s, a | Always()(s) && Careful()(s, a).Some?
      ensures Always()(Careful()(s, a).value)
    {
      StepKeeps(s, a);
    }
  }

  lemma CarefulInv(s: Sys, acts: seq<Act>)
    requires Inv(s) && Runs.Exec(Careful(), s, acts).Some?
    ensures Inv(Runs.Exec(Careful(), s, acts).value)
  {
    CarefulPreserves();
    Runs.ExecInvariant(Careful(), Always(), s, acts);
  }

  /** After `ev_init` and `lp_init`: every slot free, no subscriber, nobody posting. */
  ghost predicate Start(s: Sys) {
    && PoolInv(s.pool) && !s.pool.aborted
    && (forall i :: 0 <= i < |s.pool.slots| ==> s.pool.slots[i].refcnt == 0)
    && (forall t :: 0 <= t < |s.tasks| ==> s.tasks[t] == Idle)
    && s.subs == [] && s.queues == [] && s.posted == map[] && s.done == [] && s.lost == multiset{}
    && s.counters == Reset(|s.schema|) && !s.halted
  }

  lemma {:induction false} NothingHeld(stakes: seq<Refs>)
    requires forall i :: 0 <= i < |stakes| ==> stakes[i] == multiset{}
    ensures Total(stakes) == multiset{}
  {
    if stakes != [] {
      NothingHeld(stakes[..|stakes| - 1]);
    }
  }

  lemma StartInv(s: Sys)
    requires Start(s)
    ensures Inv(s)
  {
    NothingHeld(TaskStakes(s.tasks));
    NothingHeld(QueueStakes(s.queues));
    assert Owed(s) == multiset{};
    assert Sound(s, multiset{});
    Conclude(s, multiset{});
  }

  // ----- what the references are, counted one by one -----

  /** The poster's own reference: from allocation until the end of its fan-out. */
  predicate Owns(ph: Phase, h: Handle) {
    (ph.Filling? || ph.Fan? || ph.Sending? || ph.Undoing?) && ph.h == h
  }

  /** A reference added for a subscriber and not yet sent or taken back. */
  predicate Unsent(ph: Phase, h: Handle) {
    (ph.Sending? || ph.Undoing?) && ph.h == h
  }

  predicate Receives(ph: Phase, h: Handle) {
    (ph.Holding? || ph.Reading?) && ph.h == h
  }

  function Owners(tasks: seq<Phase>, h: Handle): nat {
    if tasks == [] then 0 else Owners(tasks[..|tasks| - 1], h) + One(Owns(tasks[|tasks| - 1], h))
  }

  function InFlight(tasks: seq<Phase>, h: Handle): nat {
    if tasks == [] then 0 else InFlight(tasks[..|tasks| - 1], h) + One(Unsent(tasks[|tasks| - 1], h))
  }

  function Receivers(tasks: seq<Phase>, h: Handle): nat {
    if tasks == [] then 0 else Receivers(tasks[..|tasks| - 1], h) + One(Receives(tasks[|tasks| - 1], h))
  }

  predicate NamesLease(m: Msg, h: Handle) {
    m.kind == LEASE && LeaseRuns.Unpack(m.a0) == h
  }

  function Naming(items: seq<Msg>, h: Handle): nat {
    if items == [] then 0 else Naming(items[..|items| - 1], h) + One(NamesLease(items[|items| - 1], h))
  }

  function Queued(queues: seq<Queue>, h: Handle): nat {
    if queues == [] then 0 else Queued(queues[..|queues| - 1], h) + Naming(queues[|queues| - 1].items, h)
  }

  lemma {:induction false} TasksCounted(tasks: seq<Phase>, h: Handle)
    requires h != INVALID
    ensures Total(TaskStakes(tasks))[h] == Owners(tasks, h) + InFlight(tasks, h) + Receivers(tasks, h)
  {
    if tasks != [] {
      var n := |tasks| - 1;
      TasksCounted(tasks[..n], h);
      assert TaskStakes(tasks)[..n] == TaskStakes(tasks[..n]);
      assert TaskStakes(tasks)[n] == PhaseRefs(tasks[n]);
      PhaseCounted(tasks[n], h);
    }
  }

  lemma PhaseCounted(ph: Phase, h: Handle)
    requires h != INVALID
    ensures PhaseRefs(ph)[h] == One(Owns(ph, h)) + One(Unsent(ph, h)) + One(Receives(ph, h))
  {
  }

  lemma {:induction false} ItemsCounted(items: seq<Msg>, h: Handle)
    ensures ItemRefs(items)[h] == Naming(items, h)
  {
    if items != [] {
      ItemsCounted(items[..|items| - 1], h);
    }
  }

  lemma {:induction false} QueuesCounted(queues: seq<Queue>, h: Handle)
    ensures Total(QueueStakes(queues))[h] == Queued(queues, h)
  {
    if queues != [] {
      var n := |queues| - 1;
      QueuesCounted(queues[..n], h);
      assert QueueStakes(queues)[..n] == QueueStakes(queues[..n]);
      assert QueueStakes(queues)[n] == ItemRefs(queues[n].items);
      ItemsCounted(queues[n].items, h);
    }
  }

  // ----- the theorems -----

  /** Ownership conservation: after every run, the reference count of every slot
      is the posters' own references plus the added and not yet sent ones plus
      the queued messages naming it plus the receivers holding it, plus the
      leases in messages that were overwritten in queues of depth 1. */
  lemma OwnershipConserved(run: seq<Sys>, i: nat)
    requires IsRun(run) && Start(run[0]) && i < |run[|run| - 1].pool.slots|
    ensures |run[|run| - 1].pool.slots| < 0xFFFF
    ensures var s := run[|run| - 1];
      var h := HandleAt(s.pool, i);
      s.pool.slots[i].refcnt
        == Owners(s.tasks, h) + InFlight(s.tasks, h) + Queued(s.queues, h) + Receivers(s.tasks, h) + s.lost[h]
  {
    StartInv(run[0]);
    RunKeeps(run);
    var s := run[|run| - 1];
    var h := HandleAt(s.pool, i);
    TasksCounted(s.tasks, h);
    QueuesCounted(s.queues, h);
  }

  /** No slot is freed or allocated again while anyone names it: a handle in a
      queue, in the hands of a task or lost is live in the pool. */
  lemma NamedIsLive(run: seq<Sys>, h: Handle)
    requires IsRun(run) && Start(run[0]) && h != INVALID
    requires var s := run[|run| - 1];
      Owners(s.tasks, h) + InFlight(s.tasks, h) + Queued(s.queues, h) + Receivers(s.tasks, h) + s.lost[h] > 0
    ensures Live(run[|run| - 1].pool, h)
  {
    StartInv(run[0]);
    RunKeeps(run);
    TasksCounted(run[|run| - 1].tasks, h);
    QueuesCounted(run[|run| - 1].queues, h);
  }

  /** Every receiver that dequeued a lease gets it: `lp_acquire` succeeds with
      the committed length, and the bytes are those of the post. No guard of the
      pool ever fires. */
  lemma ReceiversGetThePost(run: seq<Sys>, t: nat)
    requires IsRun(run) && Start(run[0])
    ensures !run[|run| - 1].pool.aborted
    ensures var s := run[|run| - 1];
      t < |s.tasks| && s.tasks[t].Holding? ==>
        var h := s.tasks[t].h;
        && h in s.posted && h.idx < |s.pool.slots|
        && Acquire(s.pool, h) == (s.pool, Some(View(h.idx, s.posted[h].len, s.pool.cap)))
        && s.pool.slots[h.idx].buf == s.posted[h].buf
  {
    StartInv(run[0]);
    RunKeeps(run);
    var s := run[|run| - 1];
    if t < |s.tasks| && s.tasks[t].Holding? {
      ReceiverSucceeds(s, t);
    }
  }

  /** While a receiver reads through its view, what it reads stays what was posted. */
  lemma ReadingIsStable(run: seq<Sys>, t: nat)
    requires IsRun(run) && Start(run[0])
    requires t < |run[|run| - 1].tasks| && run[|run| - 1].tasks[t].Reading?
    ensures var s := run[|run| - 1]; var h, v := s.tasks[t].h, s.tasks[t].v;
      && h in s.posted && v.slot == h.idx < |s.pool.slots| && v.len == s.posted[h].len
      && s.pool.slots[v.slot].buf == s.posted[h].buf
  {
    StartInv(run[0]);
    RunKeeps(run);
    ReaderSees(run[|run| - 1], t);
  }

  lemma ReaderSees(s: Sys, t: nat)
    requires Inv(s) && t < |s.tasks| && s.tasks[t].Reading?
    ensures var h, v := s.tasks[t].h, s.tasks[t].v;
      && h in s.posted && v.slot == h.idx < |s.pool.slots| && v.len == s.posted[h].len
      && s.pool.slots[v.slot].buf == s.posted[h].buf
  {
    Holds(s.tasks, s.queues, t);
    assert PhaseOk(s, Owed(s), s.tasks[t]);
    assert Intact(s.pool, s.posted, s.tasks[t].h);
  }

  ghost predicate Quiescent(s: Sys) {
    && (forall t :: 0 <= t < |s.tasks| ==> s.tasks[t].Idle?)
    && (forall q :: 0 <= q < |s.queues| ==> s.queues[q].items == [])
  }

  lemma QuietOwed(s: Sys)
    requires Quiescent(s)
    ensures Owed(s) == s.lost
  {
    NothingHeld(TaskStakes(s.tasks));
    NothingHeld(QueueStakes(s.queues));
  }

  lemma AllFree(p: Pool)
    requires Ledger(p, multiset{})
    ensures p.freeTop == |p.slots| && Distinct(p.free) && forall i: nat :: i in p.free <==> i < |p.slots|
  {
    forall i | 0 <= i < |p.slots|
      ensures p.slots[i].refcnt == 0
    {
      assert p.slots[i].refcnt == multiset{}[HandleAt(p, i)];
    }
    AllReclaimed(p);
  }

  /** When all tasks are idle and all queues empty, every slot is free again, and
      the free list names each exactly once, if and only if no lease was lost. */
  lemma QuiescentReclaimed(run: seq<Sys>)
    requires IsRun(run) && Start(run[0]) && Quiescent(run[|run| - 1])
    ensures var s := run[|run| - 1]; var p := s.pool;
      && (s.lost == multiset{} <==> p.freeTop == |p.slots|)
      && (s.lost == multiset{} ==> Distinct(p.free) && forall i: nat :: i in p.free <==> i < |p.slots|)
  {
    StartInv(run[0]);
    RunKeeps(run);
    var s := run[|run| - 1];
    QuietOwed(s);
    if s.lost == multiset{} {
      AllFree(s.pool);
    } else {
      var h :| h in s.lost;
      RoomOnFreeList(s.pool, h);
    }
  }

  /** What was lost stays lost. */
  lemma StepLost(s: Sys, u: Sys)
    requires Follows(s, u)
    ensures s.lost <= u.lost
  {
  }

  ghost function Losing(h: Handle): Sys -> bool {
    (s: Sys) => Inv(s) && h in s.lost
  }

  lemma LostStays(h: Handle)
    ensures Runs.Keeps(Next(), Losing(h))
  {
    forall s, u | Next()(s, u) && Losing(h)(s)
      ensures Losing(h)(u)
    {
      FollowKeeps(s, u);
      StepLost(s, u);
    }
  }

  lemma LostIsLive(s: Sys, h: Handle)
    requires Inv(s) && h in s.lost
    ensures Live(s.pool, h)
  {
    assert h in Owed(s);
  }

  /** A slot whose lease was lost is never freed: in every later state it is
      still live with the same generation. */
  lemma LostForever(run: seq<Sys>, h: Handle)
    requires IsRun(run) && Inv(run[0]) && h in run[0].lost
    ensures h in run[|run| - 1].lost && Live(run[|run| - 1].pool, h)
  {
    LostStays(h);
    Runs.Invariant(Next(), Losing(h), run, |run| - 1);
    LostIsLive(run[|run| - 1], h);
  }

  lemma PostsKnown(s: Sys)
    requires CountersOk(s)
    ensures Known(s.done, |s.schema|)
    ensures forall i :: 0 <= i < |s.done| ==>
      s.done[i].fo.delivered + s.done[i].fo.enqFail == LiveCount(s.done[i].local)
  {
    assert forall i :: 0 <= i < |s.done| ==> DoneOk(s.schema, s.done[i]);
  }

  ghost predicate Accounted(s: Sys) {
    && Balanced(s.counters)
    && s.counters.ok == Delivered(s.done) % U32_MOD
    && Delivered(s.done) <= |s.done|
    && s.counters.drop == (|s.done| - Delivered(s.done)) % U32_MOD
    && s.counters.enqFail == Refused(s.done) % U32_MOD
    && (forall ev: nat :: ev < |s.schema| ==> Booked(s.counters, s.done, ev))
    && (forall i :: 0 <= i < |s.done| ==>
          s.done[i].fo.delivered + s.done[i].fo.enqFail == LiveCount(s.done[i].local))
  }

  lemma CountersAccounted(s: Sys)
    requires CountersOk(s)
    ensures Accounted(s)
  {
    PostsKnown(s);
    TallyBalances(|s.schema|, s.done);
    TallyCountsPosts(|s.schema|, s.done);
    TallyRefused(|s.schema|, s.done);
    forall ev: nat | ev < |s.schema|
      ensures Booked(s.counters, s.done, ev)
    {
      TallyBooks(|s.schema|, s.done, ev);
    }
  }

  /** Between critical sections the global counters are the sums of the
      per-event ones; every post since the last reset is in exactly one of ok
      and drop, globally and under its own event; and each post delivered to, or
      failed at, every live queue of its snapshot. */
  lemma PostsAccounted(run: seq<Sys>)
    requires IsRun(run) && Start(run[0])
    ensures Accounted(run[|run| - 1])
  {
    StartInv(run[0]);
    RunKeeps(run);
    CountersAccounted(run[|run| - 1]);
  }

  predicate Posting(ph: Phase) {
    ph.Fan? || ph.Sending? || ph.Undoing? || ph.Plain? || ph.Counting?
  }

  /** Steps a post still needs at most. */
  function Work(ph: Phase): nat {
    match ph
    case Fan(_, l) => 3 * Left(l) + 2
    case Sending(_, l) => 3 * Left(l) + 1
    case Undoing(_, l) => 3 * Left(l)
    case Plain(_, l) => Left(l) + 2
    case Counting(_) => 1
    case _ => 0
  }

  function Left(l: Loop): nat {
    if l.i < |l.local| then |l.local| - l.i else 0
  }

  ghost predicate Finishing(s: Sys, t: nat) {
    && t < |s.tasks| && Continue(s, t).Some? && |Continue(s, t).value.tasks| == |s.tasks|
    && Work(Continue(s, t).value.tasks[t]) < Work(s.tasks[t])
    && (Posting(Continue(s, t).value.tasks[t]) || Continue(s, t).value.tasks[t].Idle?)
  }

  lemma PlainFinishes(s: Sys, t: nat, qos: Qos, l: Loop)
    requires t < |s.tasks| && s.tasks[t] == Plain(qos, l) && LoopOk(s, l)
    ensures Finishing(s, t)
  {
    if AtLive(l) {
      NextOk(s, l);
    }
  }

  lemma LeaseFinishes(s: Sys, t: nat, h: Handle, l: Loop)
    requires t < |s.tasks| && LoopOk(s, l)
    requires s.tasks[t] == Fan(h, l) || (AtLive(l) && (s.tasks[t] == Sending(h, l) || s.tasks[t] == Undoing(h, l)))
    ensures Finishing(s, t)
  {
    if AtLive(l) {
      NextOk(s, l);
    }
  }

  /** A post never blocks: its next step is enabled, and leaves less to do. */
  lemma PostMoves(s: Sys, t: nat)
    requires Inv(s) && t < |s.tasks| && Posting(s.tasks[t])
    ensures Continue(s, t).Some?
    ensures var u := Continue(s, t).value;
      |u.tasks| == |s.tasks| && Work(u.tasks[t]) < Work(s.tasks[t]) && (Posting(u.tasks[t]) || u.tasks[t].Idle?)
  {
    assert PhaseOk(s, Owed(s), s.tasks[t]);
    match s.tasks[t] {
      case Plain(qos, l) => PlainFinishes(s, t, qos, l);
      case Fan(h, l) => LeaseFinishes(s, t, h, l);
      case Sending(h, l) => LeaseFinishes(s, t, h, l);
      case Undoing(h, l) => LeaseFinishes(s, t, h, l);
      case _ =>
    }
  }

  ghost predicate UnderWay(s: Sys, t: nat) {
    Inv(s) && t < |s.tasks| && Posting(s.tasks[t])
  }

  ghost predicate Finished(s: Sys, t: nat) {
    Inv(s) && t < |s.tasks| && s.tasks[t].Idle?
  }

  ghost function WorkOf(s: Sys, t: nat): nat {
    if t < |s.tasks| then Work(s.tasks[t]) else 0
  }

  /** The steps that task t takes of its post. */
  ghost function By(t: nat): Act -> bool {
    (a: Act) => a == Advance(t)
  }

  lemma ContinueOther(s: Sys, k: nat, t: nat)
    requires k < |s.tasks| && t < |s.tasks| && k != t && Continue(s, k).Some?
    ensures |Continue(s, k).value.tasks| == |s.tasks| && Continue(s, k).value.tasks[t] == s.tasks[t]
  {
  }

  lemma TaskStepOther(s: Sys, a: Act, t: nat)
    requires Shape(s.pool) && !a.Join? && !a.Leave? && !a.ResetCounters? && a.t < |s.tasks| && !a.Advance?
    requires t < |s.tasks| && Posting(s.tasks[t]) && TaskStep(s, a).Some?
    ensures |TaskStep(s, a).value.tasks| == |s.tasks| && TaskStep(s, a).value.tasks[t] == s.tasks[t]
  {
  }

  /** A post moves by its own steps alone. */
  lemma OthersWait(s: Sys, a: Act, t: nat)
    requires Inv(s) && t < |s.tasks| && Posting(s.tasks[t]) && a != Advance(t) && Step(s, a).Some?
    ensures |Step(s, a).value.tasks| == |s.tasks| && Step(s, a).value.tasks[t] == s.tasks[t]
  {
    match a {
      case Join(_) =>
      case Leave(_) =>
      case ResetCounters =>
      case Advance(k) => ContinueOther(s, k, t);
      case _ => TaskStepOther(s, a, t);
    }
  }

  lemma PostStep(s: Sys, a: Act, t: nat)
    requires UnderWay(s, t) && Careful()(s, a).Some?
    ensures var u := Careful()(s, a).value;
      (UnderWay(u, t) || Finished(u, t)) && WorkOf(u, t) + (if a == Advance(t) then 1 else 0) <= WorkOf(s, t)
  {
    StepKeeps(s, a);
    if a == Advance(t) {
      PostMoves(s, t);
    } else {
      OthersWait(s, a, t);
    }
  }

  lemma WorkLeft(s: Sys, t: nat)
    requires UnderWay(s, t)
    ensures WorkOf(s, t) > 0
  {
    assert PhaseOk(s, Owed(s), s.tasks[t]);
  }

  lemma PostWorks(t: nat)
    ensures Runs.Works(Careful(), (s: Sys) => UnderWay(s, t), (s: Sys) => Finished(s, t), (s: Sys) => WorkOf(s, t), By(t))
  {
    forall s | UnderWay(s, t)
      ensures WorkOf(s, t) > 0
    {
      WorkLeft(s, t);
    }
    forall s, a | UnderWay(s, t) && Careful()(s, a).Some?
      ensures var u := Careful()(s, a).value;
        (UnderWay(u, t) || Finished(u, t)) && WorkOf(u, t) + (if a == Advance(t) then 1 else 0) <= WorkOf(s, t)
    {
      PostStep(s, a, t);
    }
  }

  // No task is ever stuck.

  /** An idle task can allocate and post, and take a message that is there. */
  lemma IdleMoves(s: Sys, t: nat, want: nat, ev: nat, a0: U32, a1: U32, q: nat)
    requires Shape(s.pool) && !s.pool.aborted && !s.halted && t < |s.tasks| && s.tasks[t].Idle?
    ensures Step(s, Alloc(t, want)).Some? && Step(s, Post(t, ev, a0, a1)).Some?
    ensures Step(s, Dequeue(t, q)).Some? <==> q < |s.queues| && s.queues[q].items != []
  {
  }

  /** A lease can be posted or given up. */
  lemma FillerMoves(s: Sys, t: nat, ev: nat, said: U16)
    requires Inv(s) && !s.halted && t < |s.tasks| && s.tasks[t].Filling?
    ensures Step(s, PostLease(t, ev, said)).Some? && Step(s, GiveUp(t)).Some?
  {
    FillerHolds(s, t);
  }

  /** A received lease opens with what was posted, and can be dropped at any time. */
  lemma ReceiverMoves(s: Sys, t: nat)
    requires Inv(s) && !s.halted && t < |s.tasks| && (s.tasks[t].Holding? || s.tasks[t].Reading?)
    ensures Step(s, Drop(t)).Some? && t < |Step(s, Drop(t)).value.tasks| && Step(s, Drop(t)).value.tasks[t].Idle?
    ensures s.tasks[t].Holding? ==>
      Step(s, Open(t)).Some? && t < |Step(s, Open(t)).value.tasks| && Step(s, Open(t)).value.tasks[t].Reading?
  {
    DropMoves(s, t);
    if s.tasks[t].Holding? {
      OpenMoves(s, t);
    }
  }

  lemma DropMoves(s: Sys, t: nat)
    requires Shape(s.pool) && !s.pool.aborted && !s.halted && t < |s.tasks| && (s.tasks[t].Holding? || s.tasks[t].Reading?)
    ensures Step(s, Drop(t)).Some? && t < |Step(s, Drop(t)).value.tasks| && Step(s, Drop(t)).value.tasks[t].Idle?
  {
  }

  lemma OpenMoves(s: Sys, t: nat)
    requires Inv(s) && !s.halted && t < |s.tasks| && s.tasks[t].Holding?
    ensures Step(s, Open(t)).Some? && t < |Step(s, Open(t)).value.tasks| && Step(s, Open(t)).value.tasks[t].Reading?
  {
    ReceiverSucceeds(s, t);
    OpenStep(s, t, s.tasks[t].h);
  }

  lemma FillerHolds(s: Sys, t: nat)
    requires Inv(s) && t < |s.tasks| && s.tasks[t].Filling?
    ensures s.tasks[t].h.idx < |s.pool.slots|
  {
    Holds(s.tasks, s.queues, t);
    CountAt(s.pool, Owed(s), s.tasks[t].h);
  }

  /** Whatever the others do, a post is over once its task has taken as many of
      its steps as it needs at most: three per subscriber of the snapshot and two. */
  lemma PostsFinish(s: Sys, t: nat, acts: seq<Act>) returns (n: nat)
    requires Inv(s) && t < |s.tasks| && Posting(s.tasks[t]) && Runs.Exec(Careful(), s, acts).Some?
    requires Runs.Count(By(t), acts) >= Work(s.tasks[t])
    ensures n <= |acts| && Runs.Exec(Careful(), s, acts[..n]).Some?
    ensures var u := Runs.Exec(Careful(), s, acts[..n]).value;
      Inv(u) && t < |u.tasks| && u.tasks[t] == Idle
    ensures Runs.Count(By(t), acts[..n]) <= Work(s.tasks[t])
  {
    PostWorks(t);
    n := Runs.JobEnds(Careful(), (s: Sys) => UnderWay(s, t), (s: Sys) => Finished(s, t), (s: Sys) => WorkOf(s, t),
                      By(t), s, acts);
  }

  // ----- depth 1 -----

  lemma OneShort(p: Pool, refs: Refs, less: Refs, m: Msg)
    requires Ledger(p, refs) && less + MsgRefs(m) == refs
    ensures Ledger(p, less) <==> m.kind != LEASE
  {
    if m.kind == LEASE {
      var h := LeaseRuns.Unpack(m.a0);
      assert h in refs && less[h] == refs[h] - 1;
      CountAt(p, refs, h);
      assert p.slots[h.idx].refcnt != less[HandleAt(p, h.idx)];
    } else {
      assert less == refs;
    }
  }

  /** A REPLACE_LAST post to a queue of depth 1 leaves somebody holding every
      counted reference if and only if the message it throws away is not a lease. */
  lemma OverwriteLeaks(s: Sys, t: nat, l: Loop, q: nat)
    requires Ledger(s.pool, Held(s.tasks, s.queues))
    requires t < |s.tasks| && s.tasks[t] == Plain(REPLACE_LAST, l) && l.msg.kind != LEASE
    requires l.i < |l.local| && l.local[l.i] == Sub(Some(q), 1)
    requires q < |s.queues| && |s.queues[q].items| == 1
    ensures Continue(s, t).Some?
    ensures var u := Continue(s, t).value;
      Ledger(u.pool, Held(u.tasks, u.queues)) <==> s.queues[q].items[0].kind != LEASE
  {
    var items, ph := s.queues[q].items, Plain(REPLACE_LAST, Hit(l));
    assert Continue(s, t) == Some(Replaced(s, t, q, l.msg, ph));
    Thrown(s.tasks, s.queues, t, q, l.msg, ph);
    assert items[..0] == [] && ItemRefs(items) == MsgRefs(items[0]);
    OneShort(s.pool, Held(s.tasks, s.queues), Held(s.tasks[t := ph], s.queues[q := Overwrite(s.queues[q], l.msg)]), items[0]);
  }

  // ----- depth 2 and more -----

  predicate NotOne(subs: seq<Sub>) {
    forall i :: 0 <= i < |subs| ==> subs[i].depth != 1
  }

  ghost predicate Deep(s: Sys) {
    && NotOne(s.subs) && s.lost == multiset{}
    && (forall t :: 0 <= t < |s.tasks| && s.tasks[t].Plain? ==> NotOne(s.tasks[t].lp.local))
    && 2 * |s.tasks| + s.room < 0xFFFF && TotalCap(s.queues) <= s.room
  }

  /** The assumptions on the environment: no subscription of depth 1 (as the
      16-bit field stores it), and queues no larger in total than `room`. */
  ghost predicate Agreed(s: Sys, a: Act) {
    a.Join? ==> DepthOf(a.depth) % U16_MOD != 1 && TotalCap(s.queues) + DepthOf(a.depth) <= s.room
  }

  lemma {:induction false} CapKept(queues: seq<Queue>, q: nat, to: Queue)
    requires q < |queues| && to.cap == queues[q].cap
    ensures TotalCap(queues[q := to]) == TotalCap(queues)
    decreases |queues|
  {
    var n := |queues| - 1;
    if q == n {
      assert queues[q := to][..n] == queues[..n];
    } else {
      CapKept(queues[..n], q, to);
      assert queues[q := to][..n] == queues[..n][q := to];
    }
  }

  lemma QueuesFull(s: Sys)
    requires Inv(s)
    ensures |Total(QueueStakes(s.queues))| <= TotalCap(s.queues)
  {
    forall q | 0 <= q < |s.queues|
      ensures |s.queues[q].items| <= s.queues[q].cap
    {
      assert QueueOk(s.posted, s.queues[q]);
    }
    QueuesFew(s.queues);
  }

  lemma SumFits(a: Refs, b: Refs, x: nat, y: nat)
    requires |a| <= x && |b| <= y && x + y < 0xFFFF
    ensures |(a + b) + multiset{}| < 0xFFFF
  {
    assert (a + b) + multiset{} == a + b;
  }

  /** Tasks and queues are too few for a reference count to come near 0xFFFF. */
  lemma HeldFew(s: Sys)
    requires Deep(s) && |Total(QueueStakes(s.queues))| <= TotalCap(s.queues)
    ensures |Owed(s)| < 0xFFFF
  {
    TotalFew(TaskStakes(s.tasks), 2);
    SumFits(Total(TaskStakes(s.tasks)), Total(QueueStakes(s.queues)), 2 * |s.tasks|, TotalCap(s.queues));
  }

  lemma DeepFits(s: Sys, t: nat)
    requires Inv(s) && Deep(s)
    ensures AddFits(s, t)
  {
    if t < |s.tasks| && s.tasks[t].Fan? {
      QueuesFull(s);
      HeldFew(s);
      Holds(s.tasks, s.queues, t);
      CountAt(s.pool, Owed(s), s.tasks[t].h);
    }
  }

  lemma DeepPlain(s: Sys, t: nat, qos: Qos, l: Loop)
    requires Deep(s) && t < |s.tasks| && s.tasks[t] == Plain(qos, l) && Continue(s, t).Some?
    ensures Deep(Continue(s, t).value)
  {
    assert NotOne(l.local);
    if AtLive(l) {
      CapKept(s.queues, l.local[l.i].q.value, Send(s.queues[l.local[l.i].q.value], l.msg));
    }
  }

  lemma DeepAdvance(s: Sys, t: nat)
    requires Deep(s) && t < |s.tasks| && Continue(s, t).Some?
    ensures Deep(Continue(s, t).value)
  {
    match s.tasks[t] {
      case Sending(_, l) => CapKept(s.queues, l.local[l.i].q.value, Send(s.queues[l.local[l.i].q.value], l.msg));
      case Plain(qos, l) => DeepPlain(s, t, qos, l);
      case _ =>
    }
  }

  lemma DeepOther(s: Sys, a: Act)
    requires Deep(s) && !a.Join? && !a.Leave? && !a.ResetCounters? && !a.Advance? && a.t < |s.tasks|
    requires Shape(s.pool) && TaskStep(s, a).Some?
    ensures Deep(TaskStep(s, a).value)
  {
    if a.Dequeue? {
      DeepDequeue(s, a.t, a.q);
    }
  }

  lemma DeepDequeue(s: Sys, t: nat, q: nat)
    requires Deep(s) && t < |s.tasks| && Shape(s.pool) && TaskStep(s, Dequeue(t, q)).Some?
    ensures Deep(TaskStep(s, Dequeue(t, q)).value)
  {
    CapKept(s.queues, q, s.queues[q].(items := s.queues[q].items[1..]));
  }

  lemma DeepJoin(s: Sys, depth: nat)
    requires Deep(s) && Agreed(s, Join(depth)) && Shape(s.pool) && Step(s, Join(depth)).Some?
    ensures Deep(Step(s, Join(depth)).value)
  {
    assert (s.queues + [Queue(DepthOf(depth), [])])[..|s.queues|] == s.queues;
  }

  lemma DeepLeave(s: Sys, q: nat)
    requires Deep(s) && Shape(s.pool) && Step(s, Leave(q)).Some?
    ensures Deep(Step(s, Leave(q)).value)
  {
  }

  lemma DeepStep(s: Sys, a: Act)
    requires Inv(s) && Deep(s) && Agreed(s, a) && Step(s, a).Some?
    ensures NoOverflow(s, a) && Deep(Step(s, a).value)
  {
    match a {
      case Join(depth) => DeepJoin(s, depth);
      case Leave(q) => DeepLeave(s, q);
      case ResetCounters =>
      case Advance(t) =>
        DeepFits(s, t);
        DeepAdvance(s, t);
      case _ => DeepOther(s, a);
    }
  }

  ghost predicate AgreedStep(s: Sys, a: Act, u: Sys) {
    Shape(s.pool) && Agreed(s, a) && Step(s, a) == Some(u)
  }

  ghost predicate FollowsAgreed(s: Sys, u: Sys) {
    exists a :: AgreedStep(s, a, u)
  }

  ghost function NextAgreed(): (Sys, Sys) -> bool {
    (s: Sys, u: Sys) => FollowsAgreed(s, u)
  }

  ghost predicate IsAgreedRun(run: seq<Sys>) {
    Runs.IsRun(NextAgreed(), run)
  }

  lemma AgreedFollows(s: Sys, u: Sys)
    requires Inv(s) && Deep(s) && FollowsAgreed(s, u)
    ensures Follows(s, u) && Inv(u) && Deep(u)
  {
    var a :| AgreedStep(s, a, u);
    DeepStep(s, a);
    StepKeeps(s, a);
    assert Takes(s, a, u);
  }

  ghost function AlwaysDeep(): Sys -> bool {
    (s: Sys) => Inv(s) && Deep(s)
  }

  lemma AgreedKeeps()
    ensures Runs.Keeps(NextAgreed(), AlwaysDeep())
  {
    forall s, u | NextAgreed()(s, u) && AlwaysDeep()(s)
      ensures AlwaysDeep()(u)
    {
      AgreedFollows(s, u);
    }
  }

  lemma AgreedLink(run: seq<Sys>, i: nat)
    requires IsAgreedRun(run) && AlwaysDeep()(run[0])
    ensures Runs.Linked(Next(), run, i)
  {
    if i + 1 < |run| {
      AgreedKeeps();
      Runs.Invariant(NextAgreed(), AlwaysDeep(), run, i);
      assert Runs.Linked(NextAgreed(), run, i);
      AgreedFollows(run[i], run[i + 1]);
    }
  }

  lemma AgreedRuns(run: seq<Sys>)
    requires IsAgreedRun(run) && AlwaysDeep()(run[0])
    ensures IsRun(run)
  {
    forall i: nat
      ensures Runs.Linked(Next(), run, i)
    {
      AgreedLink(run, i);
    }
  }

  lemma AgreedEnds(run: seq<Sys>)
    requires IsAgreedRun(run) && AlwaysDeep()(run[0])
    ensures AlwaysDeep()(run[|run| - 1])
  {
    AgreedKeeps();
    Runs.Invariant(NextAgreed(), AlwaysDeep(), run, |run| - 1);
  }

  lemma StartDeep(s: Sys)
    requires Start(s) && 2 * |s.tasks| + s.room < 0xFFFF
    ensures AlwaysDeep()(s)
  {
    StartInv(s);
  }

  /** Under these assumptions no count overflows, so such a run is a run as above,
      and no lease is ever lost. */
  lemma NothingLost(run: seq<Sys>)
    requires IsAgreedRun(run) && Start(run[0]) && 2 * |run[0].tasks| + run[0].room < 0xFFFF
    ensures IsRun(run) && Deep(run[|run| - 1])
  {
    StartDeep(run[0]);
    AgreedRuns(run);
    AgreedEnds(run);
  }

  /** With queues of depth 2 and more the four kinds of references are all: every
      counted reference is held by somebody, and when nothing is going on every
      slot is free. */
  lemma DeepConserved(run: seq<Sys>, i: nat)
    requires IsAgreedRun(run) && Start(run[0]) && 2 * |run[0].tasks| + run[0].room < 0xFFFF
    requires i < |run[|run| - 1].pool.slots|
    ensures |run[|run| - 1].pool.slots| < 0xFFFF
    ensures var s := run[|run| - 1]; var h := HandleAt(s.pool, i);
      && s.pool.slots[i].refcnt == Owners(s.tasks, h) + InFlight(s.tasks, h) + Queued(s.queues, h) + Receivers(s.tasks, h)
      && (Quiescent(s) ==> s.pool.freeTop == |s.pool.slots|)
  {
    NothingLost(run);
    OwnershipConserved(run, i);
    if Quiescent(run[|run| - 1]) {
      QuiescentReclaimed(run);
    }
  }
}
