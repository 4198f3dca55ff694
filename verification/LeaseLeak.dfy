/** Where the lease broadcast stops the system or loses a slot: the schema
    guard's test for an invalid handle, and queues of depth 1. */
module LeaseLeak {
  import opened Words
  import opened Wrappers
  import opened LeasePool
  import opened LeaseLedger
  import opened EventBus
  import opened LeaseMachine
  import opened LeaseSafety
  import opened LeaseTheorems
  import LeaseRuns
  import Runs

  /** The schema guard stops a lease post exactly when the event is not a
      DROP_NEW lease event or the handle is (0, 0), a handle the pool does issue
      (`LeaseRuns.ZeroHandleIsReachable`). */
  lemma GuardStopsLease(s: Sys, t: nat, ev: nat, said: U16)
    requires Inv(s) && !s.halted && t < |s.tasks| && s.tasks[t].Filling?
    ensures Step(s, PostLease(t, ev, said)).Some?
    ensures Step(s, PostLease(t, ev, said)).value.halted <==>
            ev >= |s.schema| || s.schema[ev].kind != LEASE || s.schema[ev].qos != DROP_NEW
            || s.tasks[t].h == Handle(0, 0)
  {
    Holds(s.tasks, s.queues, t);
    CountAt(s.pool, Owed(s), s.tasks[t].h);
    LeaseRuns.PackRoundTrip(s.tasks[t].h, LeaseRuns.Pack(s.tasks[t].h));
  }

  /** The actions lead through these states. */
  ghost predicate Leads(states: seq<Sys>, acts: seq<Act>) {
    && |states| == |acts| + 1
    && forall i :: 0 <= i < |acts| ==> Takes(states[i], acts[i], states[i + 1])
  }

  lemma TakesStep(s: Sys, a: Act, u: Sys)
    requires Takes(s, a, u)
    ensures Careful()(s, a) == Some(u)
  {
  }

  lemma LeadsExec(states: seq<Sys>, acts: seq<Act>)
    requires Leads(states, acts)
    ensures Runs.Exec(Careful(), states[0], acts) == Some(states[|acts|])
  {
    forall i | 0 <= i < |acts|
      ensures Careful()(states[i], acts[i]) == Some(states[i + 1])
    {
      TakesStep(states[i], acts[i], states[i + 1]);
    }
    Runs.ExecLeads(Careful(), states, acts);
  }

  /** One task, one subscriber of depth 1. */
  ghost predicate Small(s: Sys) {
    && Start(s) && |s.tasks| == 1 && s.maxSubs >= 1 && |s.schema| == 2
    && s.schema[0].kind == LEASE && s.schema[0].qos == DROP_NEW
    && s.schema[1].kind == COPY && s.schema[1].qos == REPLACE_LAST
    && s.pool.freeTop > 0 && s.pool.slots[s.pool.free[s.pool.freeTop - 1]].gen == 1
  }

  /** The lease is allocated and posted: its only reference is in the queue. */
  ghost predicate PostedOnly(s: Sys, h: Handle, lease: Msg) {
    && Shape(s.pool) && !s.pool.aborted && !s.halted && s.tasks == [Idle] && |s.schema| == 2
    && s.schema[1].kind == COPY && s.schema[1].qos == REPLACE_LAST
    && s.subs == [Sub(Some(0), 1)] && s.queues == [Queue(1, [lease])]
    && lease.kind == LEASE && LeaseRuns.Unpack(lease.a0) == h
  }

  function PlainActs(): seq<Act> {
    [Post(0, 1, 0, 0), Advance(0), Advance(0), Advance(0), Dequeue(0, 0)]
  }

  /** The post is counted and its message taken. */
  lemma PlainEnd(s: Sys, d: Done, m: Msg) returns (s1: Sys, s2: Sys)
    requires Shape(s.pool) && !s.pool.aborted && !s.halted && m.kind != LEASE
    requires s.tasks == [Counting(d)] && s.queues == [Queue(1, [m])]
    ensures Takes(s, Advance(0), s1) && Takes(s1, Dequeue(0, 0), s2)
    ensures Quiescent(s2) && s2.lost == s.lost
  {
    s1 := Put(s.(counters := Count(s.counters, d.ev, d.fo), done := s.done + [d]), 0, Idle);
    s2 := Put(s1.(queues := [Queue(1, [])]), 0, Idle);
    assert s1.queues[0 := Queue(1, [])] == s2.queues && [m][1..] == [];
  }

  /** The post overwrites the queued lease. */
  lemma PlainStart(s: Sys, h: Handle, lease: Msg, m: Msg) returns (s1: Sys, s2: Sys, s3: Sys)
    requires PostedOnly(s, h, lease) && m == Msg(1, COPY, 0, 0)
    ensures Takes(s, Post(0, 1, 0, 0), s1) && Takes(s1, Advance(0), s2) && Takes(s2, Advance(0), s3)
    ensures s3.pool == s.pool && !s3.halted && s3.queues == [Queue(1, [m])] && s3.lost == s.lost + ItemRefs([lease])
    ensures exists d :: s3.tasks == [Counting(d)]
  {
    var l0 := Loop(m, s.subs, 0, Fanout(0, 0));
    s1 := Put(s, 0, Plain(REPLACE_LAST, l0));
    s2 := Replaced(s1, 0, 0, m, Plain(REPLACE_LAST, Hit(l0)));
    s3 := Put(s2, 0, Ended(Hit(l0)));
    assert s3.tasks == [Counting(Done(1, Hit(l0).fo, Hit(l0).local))];
  }

  /** A REPLACE_LAST post, received and done with. */
  lemma PlainSteps(s: Sys, h: Handle, lease: Msg) returns (states: seq<Sys>)
    requires PostedOnly(s, h, lease)
    ensures Leads(states, PlainActs()) && states[0] == s
    ensures Quiescent(states[5]) && h in states[5].lost
  {
    var m := Msg(1, COPY, 0, 0);
    var s1, s2, s3 := PlainStart(s, h, lease, m);
    var d :| s3.tasks == [Counting(d)];
    var s4, s5 := PlainEnd(s3, d, m);
    LeaseItem(lease, h);
    states := [s, s1, s2, s3, s4, s5];
  }

  lemma LeaseItem(lease: Msg, h: Handle)
    requires lease.kind == LEASE && LeaseRuns.Unpack(lease.a0) == h
    ensures h in ItemRefs([lease])
  {
    assert [lease][..0] == [];
    assert ItemRefs([lease]) == multiset{} + MsgRefs(lease);
  }

  function FanActs(): seq<Act> {
    [Advance(0), Advance(0), Advance(0), Advance(0)]
  }

  /** One subscriber with room: the reference of the poster becomes the queue's. */
  lemma FanSteps(s: Sys, h: Handle, l: Loop) returns (states: seq<Sys>)
    requires PoolInv(s.pool) && !s.pool.aborted && Usable(s.pool, h) && s.pool.slots[h.idx].refcnt == 1 && !s.halted
    requires s.tasks == [Fan(h, l)] && l.i == 0 && l.local == s.subs == [Sub(Some(0), 1)]
    requires l.msg.kind == LEASE && LeaseRuns.Unpack(l.msg.a0) == h && s.queues == [Queue(1, [])]
    requires |s.schema| == 2 && s.schema[1].kind == COPY && s.schema[1].qos == REPLACE_LAST
    ensures Leads(states, FanActs()) && states[0] == s && PostedOnly(states[4], h, l.msg)
  {
    var acts := FanActs();
    var p1 := AddRef(s.pool, h, 1);
    AddRefInv(s.pool, h, 1);
    var p2 := Release(p1, h);
    ReleaseInv(p1, h);
    assert !p1.aborted && !p2.aborted;
    var s1 := Put(s.(pool := p1), 0, Sending(h, l));
    AddFits1(s, h);
    assert Takes(s, acts[0], s1);
    assert Send(Queue(1, []), l.msg) == Queue(1, [l.msg]) by { assert [] + [l.msg] == [l.msg]; }
    var s2 := Put(s1.(queues := [Queue(1, [l.msg])]), 0, Fan(h, Hit(l)));
    assert s1.queues[0 := Queue(1, [l.msg])] == s2.queues;
    assert Takes(s1, acts[1], s2);
    var s3 := Put(s2.(pool := p2), 0, Ended(Hit(l)));
    assert Takes(s2, acts[2], s3);
    var d := s3.tasks[0].done;
    var s4 := Put(s3.(counters := Count(s3.counters, d.ev, d.fo), done := s3.done + [d]), 0, Idle);
    assert Takes(s3, acts[3], s4);
    assert s4.tasks == [Idle];
    states := [s, s1, s2, s3, s4];
  }

  lemma AddFits1(s: Sys, h: Handle)
    requires h.idx < |s.pool.slots| && s.pool.slots[h.idx].refcnt == 1
    requires |s.tasks| == 1 && s.tasks[0].Fan? && s.tasks[0].h == h
    ensures AddFits(s, 0)
  {
  }

  function LeaseActs(): seq<Act> {
    [Join(1), Alloc(0, 0), PostLease(0, 0, 0)] + FanActs()
  }

  lemma TopIsFree(p: Pool)
    requires PoolInv(p) && !p.aborted && p.freeTop > 0
    ensures var (q, h) := AllocTry(p, 0);
      PoolInv(q) && !q.aborted && h == HandleAt(p, p.free[p.freeTop - 1]) && Usable(q, h) && q.slots[h.idx].refcnt == 1
  {
    var idx := p.free[p.freeTop - 1];
    assert InFree(p, idx) by { assert p.free[..p.freeTop][p.freeTop - 1] == idx; }
    assert SlotOk(p, idx);
    AllocInv(p, 0);
  }

  /** Subscribing with depth 1 and allocating. */
  lemma JoinAlloc(s: Sys) returns (s1: Sys, s2: Sys, h: Handle)
    requires Small(s)
    ensures Takes(s, Join(1), s1) && Takes(s1, Alloc(0, 0), s2)
    ensures PoolInv(s2.pool) && !s2.pool.aborted && Usable(s2.pool, h) && s2.pool.slots[h.idx].refcnt == 1 && h.gen == 1
    ensures s2.tasks == [Filling(h)] && s2.subs == [Sub(Some(0), 1)] && s2.queues == [Queue(1, [])]
    ensures !s2.halted && s2.schema == s.schema
  {
    s1 := s.(subs := [Sub(Some(0), 1)], queues := [Queue(1, [])]);
    assert s.subs + [Sub(Some(0), 1)] == s1.subs && s.queues + [Queue(1, [])] == s1.queues;
    assert Takes(s, Join(1), s1);
    var (p1, top) := AllocTry(s.pool, 0);
    h := top;
    TopIsFree(s.pool);
    assert s1.tasks[0] == Idle && h.idx < |s.pool.slots|;
    s2 := Put(s1.(pool := p1, posted := s1.posted - {h}), 0, Filling(h));
    assert Takes(s1, Alloc(0, 0), s2);
  }

  /** And starting to post. */
  lemma FirstSteps(s: Sys) returns (states: seq<Sys>, h: Handle, l: Loop)
    requires Small(s)
    ensures Leads(states, [Join(1), Alloc(0, 0), PostLease(0, 0, 0)]) && states[0] == s
    ensures var u := states[3];
      && PoolInv(u.pool) && !u.pool.aborted && Usable(u.pool, h) && u.pool.slots[h.idx].refcnt == 1 && !u.halted
      && u.tasks == [Fan(h, l)] && l.i == 0 && l.local == u.subs == [Sub(Some(0), 1)]
      && l.msg.kind == LEASE && LeaseRuns.Unpack(l.msg.a0) == h && u.queues == [Queue(1, [])] && u.schema == s.schema
  {
    var s1, s2;
    s1, s2, h := JoinAlloc(s);
    var m := Msg(0, LEASE, LeaseRuns.Pack(h), 0);
    LeaseRuns.UnpackPack(h);
    NotZero(h);
    var s3 := Begin(s2, 0, h, m);
    assert Takes(s2, PostLease(0, 0, 0), s3);
    l := Loop(m, s2.subs, 0, Fanout(0, 0));
    assert s3.tasks == [Fan(h, l)];
    states := [s, s1, s2, s3];
  }

  lemma NotZero(h: Handle)
    requires h.gen == 1
    ensures LeaseRuns.Pack(h) != 0
  {
  }

  /** Subscribing with depth 1 and posting one lease. */
  lemma LeaseQueued(s: Sys) returns (u: Sys, h: Handle, lease: Msg)
    requires Small(s)
    ensures Runs.Exec(Careful(), s, LeaseActs()) == Some(u) && Inv(u) && PostedOnly(u, h, lease)
  {
    StartInv(s);
    var states, l;
    states, h, l := FirstSteps(s);
    var first := [Join(1), Alloc(0, 0), PostLease(0, 0, 0)];
    LeadsExec(states, first);
    var more := FanSteps(states[3], h, l);
    LeadsExec(more, FanActs());
    Runs.ExecAppend(Careful(), s, first, FanActs());
    CarefulInv(s, LeaseActs());
    u, lease := more[4], l.msg;
  }

  /** With a subscriber of depth 1, a lease post followed by a REPLACE_LAST post
      leaves every task idle and every queue empty, and yet a lease whose slot is
      never freed, whatever happens afterwards. */
  lemma DepthOneLosesASlot(s: Sys)
    requires Small(s)
    ensures exists u: Sys, h: Handle :: Lost(s, u, h)
  {
    var mid, h, lease := LeaseQueued(s);
    var states := PlainSteps(mid, h, lease);
    var u := states[5];
    LeadsExec(states, PlainActs());
    Runs.ExecAppend(Careful(), s, LeaseActs(), PlainActs());
    CarefulInv(mid, PlainActs());
    forall run: seq<Sys> | IsRun(run) && run[0] == u
      ensures Live(run[|run| - 1].pool, h)
    {
      LostForever(run, h);
    }
    assert Lost(s, u, h);
  }

  ghost predicate Lost(s: Sys, u: Sys, h: Handle) {
    && Runs.Exec(Careful(), s, LeaseActs() + PlainActs()) == Some(u)
    && Quiescent(u) && forall run: seq<Sys> :: IsRun(run) && run[0] == u ==> Live(run[|run| - 1].pool, h)
  }
}
