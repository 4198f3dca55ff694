/** Posters and receivers of leases, interleaved at every point (core__ev over
    core__leasepool). Each task has a program counter; a step is one critical
    section of the pool or the bus, or one queue operation. */
module LeaseMachine {
  import opened Words
  import opened Wrappers
  import opened LeasePool
  import opened LeaseLedger
  import opened EventBus
  import LeaseRuns

  /** The fan-out loop of a post: message, subscriber snapshot, index, tally. */
  datatype Loop = Loop(msg: Msg, local: seq<Sub>, i: nat, fo: Fanout)

  datatype Phase =
    | Idle
    | Filling(h: Handle)            // allocated, not yet posted
    | Fan(h: Handle, lp: Loop)      // about to look at subscriber lp.i
    | Sending(h: Handle, lp: Loop)  // reference added for subscriber lp.i
    | Undoing(h: Handle, lp: Loop)  // its queue was full
    | Plain(qos: Qos, lp: Loop)     // fan-out of a message without a lease
    | Counting(done: Done)          // fan-out finished, counters not yet updated
    | Holding(h: Handle)            // lease message dequeued
    | Reading(h: Handle, v: View)   // lp_acquire succeeded

  datatype Payload = Payload(len: nat, buf: seq<Byte>)

  /** `posted` remembers what each handle carried when it was posted; `done` is
      the list of posts counted since the last reset; `lost` collects the leases
      in messages that were overwritten; `room` bounds the total depth of the
      queues. */
  datatype Sys = Sys(
    pool: Pool, subs: seq<Sub>, queues: seq<Queue>, tasks: seq<Phase>,
    counters: Counters, halted: bool,
    schema: seq<Meta>, maxSubs: nat, room: nat,
    posted: map<Handle, Payload>, done: seq<Done>, lost: Refs)

  datatype Act =
    | Alloc(t: nat, want: nat)
    | Store(t: nat, off: nat, b: Byte)
    | SetLen(t: nat, len: nat)
    | GiveUp(t: nat)
    | PostLease(t: nat, ev: nat, said: U16)
    | Post(t: nat, ev: nat, a0: U32, a1: U32)
    | Advance(t: nat)
    | Dequeue(t: nat, q: nat)
    | Open(t: nat)
    | Drop(t: nat)
    | Join(depth: nat)
    | Leave(q: nat)
    | ResetCounters

  // ----- steps -----

  function Put(s: Sys, t: nat, ph: Phase): Sys
    requires t < |s.tasks|
  {
    s.(tasks := s.tasks[t := ph])
  }

  function Skip(l: Loop): Loop {
    l.(i := l.i + 1)
  }

  function Hit(l: Loop): Loop {
    l.(i := l.i + 1, fo := l.fo.(delivered := l.fo.delivered + 1))
  }

  function Miss(l: Loop): Loop {
    l.(i := l.i + 1, fo := l.fo.(enqFail := l.fo.enqFail + 1))
  }

  function Ended(l: Loop): Phase {
    Counting(Done(l.msg.ev, l.fo, l.local))
  }

  /** The next step of a post that is under way. */
  function Continue(s: Sys, t: nat): Option<Sys>
    requires t < |s.tasks|
  {
    match s.tasks[t]
    case Fan(h, l) =>
      if l.i >= |l.local| then Some(Put(s.(pool := Release(s.pool, h)), t, Ended(l)))
      else if l.local[l.i].q.None? then Some(Put(s, t, Fan(h, Skip(l))))
      else Some(Put(s.(pool := AddRef(s.pool, h, 1)), t, Sending(h, l)))
    case Sending(h, l) =>
      if l.i >= |l.local| || l.local[l.i].q.None? || l.local[l.i].q.value >= |s.queues| then None
      else
        var q := l.local[l.i].q.value;
        if Full(s.queues[q]) then Some(Put(s, t, Undoing(h, l)))
        else Some(Put(s.(queues := s.queues[q := Send(s.queues[q], l.msg)]), t, Fan(h, Hit(l))))
    case Undoing(h, l) => Some(Put(s.(pool := Release(s.pool, h)), t, Fan(h, Miss(l))))
    case Plain(qos, l) =>
      if l.i >= |l.local| then Some(Put(s, t, Ended(l)))
      else if l.local[l.i].q.None? then Some(Put(s, t, Plain(qos, Skip(l))))
      else if l.local[l.i].q.value >= |s.queues| then None
      else
        var q := l.local[l.i].q.value;
        if qos == REPLACE_LAST && l.local[l.i].depth == 1 then
          Some(Put(s.(queues := s.queues[q := Overwrite(s.queues[q], l.msg)],
                      lost := s.lost + ItemRefs(s.queues[q].items)), t, Plain(qos, Hit(l))))
        else if Full(s.queues[q]) then Some(Put(s, t, Plain(qos, Miss(l))))
        else Some(Put(s.(queues := s.queues[q := Send(s.queues[q], l.msg)]), t, Plain(qos, Hit(l))))
    case Counting(d) =>
      Some(Put(s.(counters := Count(s.counters, d.ev, d.fo), done := s.done + [d]), t, Idle))
    case _ => None
  }

  /** What the schema guard accepts for a lease. */
  predicate LeaseAccepted(schema: seq<Meta>, ev: nat, h: Handle) {
    LeaseEvent(schema, ev) && LeaseRuns.Pack(h) != 0
  }

  /** The post of h with message m takes its snapshot of the subscribers. */
  function Begin(s: Sys, t: nat, h: Handle, m: Msg): Sys
    requires t < |s.tasks| && h.idx < |s.pool.slots|
  {
    var slot := s.pool.slots[h.idx];
    Put(s.(posted := s.posted[h := Payload(slot.len, slot.buf)]), t, Fan(h, Loop(m, s.subs, 0, Fanout(0, 0))))
  }

  function StartLease(s: Sys, t: nat, h: Handle, ev: nat, said: U16): Sys
    requires t < |s.tasks| && h.idx < |s.pool.slots|
  {
    if !LeaseAccepted(s.schema, ev, h) then s.(halted := true)
    else Begin(s, t, h, Msg(ev, LEASE, LeaseRuns.Pack(h), said))
  }

  function Step(s: Sys, a: Act): Option<Sys>
    requires Shape(s.pool)
  {
    if s.halted || s.pool.aborted then None
    else
      match a
      case Join(depth) =>
        var (tab, q) := Subscribe(Table(s.subs, s.queues), s.maxSubs, depth);
        Some(s.(subs := tab.subs, queues := tab.queues))
      case Leave(q) => Some(s.(subs := Unsubscribe(Table(s.subs, s.queues), q).subs))
      case ResetCounters => Some(s.(counters := Reset(|s.schema|), done := []))
      case _ => if a.t < |s.tasks| then TaskStep(s, a) else None
  }

  function TaskStep(s: Sys, a: Act): Option<Sys>
    requires Shape(s.pool)
    requires !a.Join? && !a.Leave? && !a.ResetCounters? && a.t < |s.tasks|
  {
    match (a, s.tasks[a.t])
    case (Alloc(t, want), Idle) =>
      var (p, h) := AllocTry(s.pool, want);
      if h.idx == 0xFFFF then Some(s.(pool := p))
      else Some(Put(s.(pool := p, posted := s.posted - {h}), t, Filling(h)))
    case (Store(t, off, b), Filling(h)) =>
      Some(s.(pool := Write(s.pool, View(h.idx, 0, s.pool.cap), off, b)))
    case (SetLen(t, len), Filling(h)) =>
      if len <= s.pool.cap then Some(s.(pool := LeasePool.Commit(s.pool, h, len))) else None
    case (GiveUp(t), Filling(h)) => Some(Put(s.(pool := Release(s.pool, h)), t, Idle))
    case (PostLease(t, ev, said), Filling(h)) =>
      if h.idx < |s.pool.slots| then Some(StartLease(s, t, h, ev, said)) else None
    case (Post(t, ev, a0, a1), Idle) =>
      if !PlainAccepted(s.schema, ev, a0, a1) then Some(s.(halted := true))
      else Some(Put(s, t, Plain(s.schema[ev].qos, Loop(Msg(ev, s.schema[ev].kind, a0, a1), s.subs, 0, Fanout(0, 0)))))
    case (Advance(t), _) => Continue(s, t)
    case (Dequeue(t, q), Idle) =>
      if q >= |s.queues| || s.queues[q].items == [] then None
      else
        var m := s.queues[q].items[0];
        Some(Put(s.(queues := s.queues[q := s.queues[q].(items := s.queues[q].items[1..])]), t,
                 if m.kind == LEASE then Holding(LeaseRuns.Unpack(m.a0)) else Idle))
    case (Open(t), Holding(h)) =>
      var (p, v) := Acquire(s.pool, h);
      if v.Some? then Some(Put(s.(pool := p), t, Reading(h, v.value))) else Some(s.(pool := p))
    case (Drop(t), Holding(h)) => Some(Put(s.(pool := Release(s.pool, h)), t, Idle))
    case (Drop(t), Reading(h, _)) => Some(Put(s.(pool := Release(s.pool, h)), t, Idle))
    case _ => None
  }

  // ----- who holds what -----

  /** How many references a task holds at its program point, and to what. */
  ghost function Shares(ph: Phase): nat {
    match ph
    case Sending(_, _) => 2
    case Undoing(_, _) => 2
    case Idle => 0
    case Plain(_, _) => 0
    case Counting(_) => 0
    case _ => 1
  }

  ghost function Lease(ph: Phase): Handle {
    if ph.Idle? || ph.Plain? || ph.Counting? then INVALID else ph.h
  }

  ghost function PhaseRefs(ph: Phase): Refs {
    multiset{}[Lease(ph) := Shares(ph)]
  }

  function MsgRefs(m: Msg): Refs {
    if m.kind == LEASE then multiset{LeaseRuns.Unpack(m.a0)} else multiset{}
  }

  /** The references travelling in a queue. */
  function ItemRefs(items: seq<Msg>): Refs {
    if items == [] then multiset{} else ItemRefs(items[..|items| - 1]) + MsgRefs(items[|items| - 1])
  }

  /** The sum of a list of stakes. */
  ghost function Total(stakes: seq<Refs>): Refs {
    if stakes == [] then multiset{} else Total(stakes[..|stakes| - 1]) + stakes[|stakes| - 1]
  }

  ghost function TaskStakes(tasks: seq<Phase>): seq<Refs> {
    seq(|tasks|, i requires 0 <= i < |tasks| => PhaseRefs(tasks[i]))
  }

  ghost function QueueStakes(queues: seq<Queue>): seq<Refs> {
    seq(|queues|, i requires 0 <= i < |queues| => ItemRefs(queues[i].items))
  }

  /** Every reference held by a poster, travelling in a queue, or held by a receiver. */
  ghost function Held(tasks: seq<Phase>, queues: seq<Queue>): Refs {
    Total(TaskStakes(tasks)) + Total(QueueStakes(queues))
  }

  ghost function TotalCap(queues: seq<Queue>): nat {
    if queues == [] then 0 else TotalCap(queues[..|queues| - 1]) + queues[|queues| - 1].cap
  }

  // ----- sums of stakes -----

  lemma Carry(a: Refs, b: Refs, x: Refs, y: Refs, c: Refs)
    requires a + x == b + y
    ensures (a + c) + x == (b + c) + y
  {
    assert (a + c) + x == (a + x) + c;
    assert (b + c) + y == (b + y) + c;
  }

  lemma {:induction false} TotalMoved(stakes: seq<Refs>, t: nat, x: Refs)
    requires t < |stakes|
    ensures Total(stakes[t := x]) + stakes[t] == Total(stakes) + x
    decreases |stakes|
  {
    var n := |stakes| - 1;
    var to := stakes[t := x];
    if t == n {
      assert to[..n] == stakes[..n];
      assert Total(to) == Total(stakes[..n]) + x;
    } else {
      TotalMoved(stakes[..n], t, x);
      assert to[..n] == stakes[..n][t := x];
      Carry(Total(to[..n]), Total(stakes[..n]), stakes[t], x, stakes[n]);
    }
  }

  lemma TotalHas(stakes: seq<Refs>, t: nat)
    requires t < |stakes|
    ensures stakes[t] <= Total(stakes)
  {
    TotalMoved(stakes, t, multiset{});
  }

  /** Two stakes in h are at least two references. */
  lemma TotalTwo(stakes: seq<Refs>, t: nat, k: nat, h: Handle)
    requires t < |stakes| && k < |stakes| && t != k
    requires h in stakes[t] && h in stakes[k]
    ensures Total(stakes)[h] >= 2
  {
    var one := stakes[t := multiset{}];
    TotalMoved(stakes, t, multiset{});
    TotalMoved(one, k, multiset{});
    assert one[k] == stakes[k];
    var two := one[k := multiset{}];
    assert Total(stakes)[h] == (Total(one) + stakes[t])[h];
    assert Total(one)[h] == (Total(two) + stakes[k])[h];
  }

  lemma MoreOf(each: nat, n: nat)
    ensures each * (n + 1) == each * n + each
  {
  }

  lemma {:induction false} TotalFew(stakes: seq<Refs>, each: nat)
    requires forall i :: 0 <= i < |stakes| ==> |stakes[i]| <= each
    ensures |Total(stakes)| <= each * |stakes|
  {
    if stakes != [] {
      var n := |stakes| - 1;
      TotalFew(stakes[..n], each);
      MoreOf(each, n);
    }
  }

  lemma {:induction false} Appended(items: seq<Msg>, m: Msg)
    ensures ItemRefs(items + [m]) == ItemRefs(items) + MsgRefs(m)
  {
    assert (items + [m])[..|items|] == items;
  }

  lemma Regroup(a: Refs, b: Refs, c: Refs)
    ensures (a + b) + c == a + (b + c)
  {
  }

  lemma {:induction false} Removed(items: seq<Msg>)
    requires items != []
    ensures ItemRefs(items) == MsgRefs(items[0]) + ItemRefs(items[1..])
  {
    var n := |items| - 1;
    if n == 0 {
      assert items[..0] == [] && items[1..] == [];
      assert ItemRefs(items) == multiset{} + MsgRefs(items[0]);
      assert ItemRefs(items[1..]) == multiset{};
    } else {
      var tail := items[1..];
      Removed(items[..n]);
      assert items[..n][1..] == tail[..n - 1] && tail[n - 1] == items[n];
      assert ItemRefs(tail) == ItemRefs(tail[..n - 1]) + MsgRefs(items[n]);
      Regroup(MsgRefs(items[0]), ItemRefs(tail[..n - 1]), MsgRefs(items[n]));
    }
  }

  lemma {:induction false} ItemsFew(items: seq<Msg>)
    ensures |ItemRefs(items)| <= |items|
  {
    if items != [] {
      ItemsFew(items[..|items| - 1]);
    }
  }

  lemma {:induction false} QueuesFew(queues: seq<Queue>)
    requires forall q :: 0 <= q < |queues| ==> |queues[q].items| <= queues[q].cap
    ensures |Total(QueueStakes(queues))| <= TotalCap(queues)
  {
    if queues != [] {
      var n := |queues| - 1;
      QueuesFew(queues[..n]);
      ItemsFew(queues[n].items);
      assert QueueStakes(queues)[..n] == QueueStakes(queues[..n]);
    }
  }

  /** A step of one task and at most one queue moves that much and no more. */
  lemma TaskMoved(tasks: seq<Phase>, queues: seq<Queue>, t: nat, ph: Phase)
    requires t < |tasks|
    ensures Held(tasks[t := ph], queues) + PhaseRefs(tasks[t]) == Held(tasks, queues) + PhaseRefs(ph)
  {
    TotalMoved(TaskStakes(tasks), t, PhaseRefs(ph));
    assert TaskStakes(tasks[t := ph]) == TaskStakes(tasks)[t := PhaseRefs(ph)];
    var a, b := Total(TaskStakes(tasks[t := ph])), Total(TaskStakes(tasks));
    Carry(a, b, PhaseRefs(tasks[t]), PhaseRefs(ph), Total(QueueStakes(queues)));
  }

  lemma OneQueue(queues: seq<Queue>, q: nat, to: Queue)
    requires q < |queues|
    ensures Total(QueueStakes(queues[q := to])) + ItemRefs(queues[q].items)
         == Total(QueueStakes(queues)) + ItemRefs(to.items)
  {
    TotalMoved(QueueStakes(queues), q, ItemRefs(to.items));
    assert QueueStakes(queues[q := to]) == QueueStakes(queues)[q := ItemRefs(to.items)];
  }

  lemma QueueMoved(tasks: seq<Phase>, queues: seq<Queue>, q: nat, to: Queue)
    requires q < |queues|
    ensures Held(tasks, queues[q := to]) + ItemRefs(queues[q].items) == Held(tasks, queues) + ItemRefs(to.items)
  {
    OneQueue(queues, q, to);
    var a, b, c := Total(QueueStakes(queues[q := to])), Total(QueueStakes(queues)), Total(TaskStakes(tasks));
    Carry(a, b, ItemRefs(queues[q].items), ItemRefs(to.items), c);
    assert a + c == c + a && b + c == c + b;
  }

  lemma Cancel(a: Refs, b: Refs, x: Refs)
    requires a + x == b + x
    ensures a == b
  {
    assert a == (a + x) - x;
    assert b == (b + x) - x;
  }

  lemma HeldSame(tasks: seq<Phase>, queues: seq<Queue>, t: nat, ph: Phase)
    requires t < |tasks| && Lease(ph) == Lease(tasks[t]) && Shares(ph) == Shares(tasks[t])
    ensures Held(tasks[t := ph], queues) == Held(tasks, queues)
  {
    TaskMoved(tasks, queues, t, ph);
    Cancel(Held(tasks[t := ph], queues), Held(tasks, queues), PhaseRefs(ph));
  }

  lemma HeldLess(tasks: seq<Phase>, queues: seq<Queue>, t: nat, ph: Phase)
    requires t < |tasks| && Shares(tasks[t]) == Shares(ph) + 1
    requires Shares(ph) > 0 ==> Lease(ph) == Lease(tasks[t])
    ensures Held(tasks[t := ph], queues) == Held(tasks, queues) - multiset{Lease(tasks[t])}
  {
    var h := Lease(tasks[t]);
    TaskMoved(tasks, queues, t, ph);
    var a, b, x := Held(tasks[t := ph], queues), Held(tasks, queues), PhaseRefs(ph);
    assert PhaseRefs(tasks[t]) == x + multiset{h};
    assert a + (x + multiset{h}) == (a + multiset{h}) + x;
    Cancel(a + multiset{h}, b, x);
  }

  lemma Holds(tasks: seq<Phase>, queues: seq<Queue>, t: nat)
    requires t < |tasks| && Shares(tasks[t]) > 0
    ensures Lease(tasks[t]) in Held(tasks, queues)
  {
    TotalHas(TaskStakes(tasks), t);
    assert Lease(tasks[t]) in PhaseRefs(tasks[t]);
    assert PhaseRefs(tasks[t]) == TaskStakes(tasks)[t];
  }

  lemma HeldMore(tasks: seq<Phase>, queues: seq<Queue>, t: nat, ph: Phase)
    requires t < |tasks| && Shares(ph) == Shares(tasks[t]) + 1
    requires Shares(tasks[t]) > 0 ==> Lease(tasks[t]) == Lease(ph)
    ensures Held(tasks[t := ph], queues) == Held(tasks, queues) + multiset{Lease(ph)}
  {
    var h := Lease(ph);
    TaskMoved(tasks, queues, t, ph);
    var a, b, x := Held(tasks[t := ph], queues), Held(tasks, queues), PhaseRefs(tasks[t]);
    assert PhaseRefs(ph) == x + multiset{h};
    assert b + (x + multiset{h}) == (b + multiset{h}) + x;
    Cancel(a, b + multiset{h}, x);
  }

  /** A reference passes between a task and a queue. */
  lemma HeldPassed(tasks: seq<Phase>, queues: seq<Queue>, t: nat, ph: Phase, q: nat, to: Queue)
    requires t < |tasks| && q < |queues|
    requires PhaseRefs(ph) + ItemRefs(to.items) == PhaseRefs(tasks[t]) + ItemRefs(queues[q].items)
    ensures Held(tasks[t := ph], queues[q := to]) == Held(tasks, queues)
  {
    QueueMoved(tasks, queues, q, to);
    TaskMoved(tasks, queues[q := to], t, ph);
    var a, b, c := Held(tasks[t := ph], queues[q := to]), Held(tasks, queues[q := to]), Held(tasks, queues);
    var x, y, v, w := PhaseRefs(tasks[t]), PhaseRefs(ph), ItemRefs(queues[q].items), ItemRefs(to.items);
    Carry(a, b, x, y, v);
    Carry(b, c, v, w, y);
    Swap(a, b, c, x, y, v, w);
    Cancel(a, c, x + v);
  }

  lemma Swap(a: Refs, b: Refs, c: Refs, x: Refs, y: Refs, v: Refs, w: Refs)
    requires (a + v) + x == (b + v) + y && (b + y) + v == (c + y) + w && y + w == x + v
    ensures a + (x + v) == c + (x + v)
  {
    assert a + (x + v) == (a + v) + x;
    assert (b + v) + y == (b + y) + v;
    assert (c + y) + w == c + (y + w);
  }
}
