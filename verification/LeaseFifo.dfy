/** The queues of the bus over whole runs: messages leave in the order in which
    they were posted, each once, and carry what was posted. */
module LeaseFifo {
  import opened Words
  import opened Wrappers
  import opened LeasePool
  import opened EventBus
  import opened LeaseMachine
  import opened LeaseSafety
  import opened LeaseTheorems
  import Runs

  /** The loop of task t is at queue q with a message. */
  ghost predicate Offers(s: Sys, t: nat, q: nat) {
    && t < |s.tasks| && (s.tasks[t].Sending? || s.tasks[t].Plain?) && q < |s.queues|
    && AtLive(s.tasks[t].lp) && s.tasks[t].lp.local[s.tasks[t].lp.i].q == Some(q)
  }

  /** Task t is about to replace what queue q holds. */
  ghost predicate Replaces(s: Sys, t: nat, q: nat)
    requires Offers(s, t, q)
  {
    s.tasks[t].Plain? && s.tasks[t].qos == REPLACE_LAST && s.tasks[t].lp.local[s.tasks[t].lp.i].depth == 1
  }

  /** What an action puts into queue q. */
  ghost function In(s: Sys, a: Act, q: nat): seq<Msg> {
    if a.Advance? && Offers(s, a.t, q) && (Replaces(s, a.t, q) || |s.queues[q].items| < s.queues[q].cap)
    then [s.tasks[a.t].lp.msg]
    else []
  }

  /** What it takes out: the oldest message, or all that is replaced. */
  ghost function Out(s: Sys, a: Act, q: nat): seq<Msg> {
    if q >= |s.queues| then []
    else if a.Dequeue? && a.q == q && s.queues[q].items != [] then [s.queues[q].items[0]]
    else if a.Advance? && Offers(s, a.t, q) && Replaces(s, a.t, q) then s.queues[q].items
    else []
  }

  function ItemsOf(s: Sys, q: nat): seq<Msg> {
    if q < |s.queues| then s.queues[q].items else []
  }

  lemma AdvanceFifo(s: Sys, t: nat, q: nat)
    requires t < |s.tasks| && Continue(s, t).Some?
    ensures ItemsOf(s, q) + In(s, Advance(t), q) == Out(s, Advance(t), q) + ItemsOf(Continue(s, t).value, q)
  {
    if Offers(s, t, q) {
      OfferFifo(s, t, q);
    } else {
      OtherFifo(s, t, q);
    }
  }

  lemma OfferFifo(s: Sys, t: nat, q: nat)
    requires Offers(s, t, q) && Continue(s, t).Some?
    ensures var items, u := s.queues[q].items, Continue(s, t).value;
      && q < |u.queues|
      && u.queues[q].items == (if Replaces(s, t, q) then [s.tasks[t].lp.msg]
                               else if |items| < s.queues[q].cap then items + [s.tasks[t].lp.msg] else items)
  {
  }

  lemma OtherFifo(s: Sys, t: nat, q: nat)
    requires t < |s.tasks| && Continue(s, t).Some? && !Offers(s, t, q)
    ensures ItemsOf(Continue(s, t).value, q) == ItemsOf(s, q)
  {
    match s.tasks[t] {
      case Sending(_, _) => OtherSend(s, t, q);
      case Plain(_, _) => OtherPlain(s, t, q);
      case _ =>
    }
  }

  lemma OtherSend(s: Sys, t: nat, q: nat)
    requires t < |s.tasks| && s.tasks[t].Sending? && Continue(s, t).Some? && !Offers(s, t, q)
    ensures ItemsOf(Continue(s, t).value, q) == ItemsOf(s, q)
  {
  }

  lemma OtherPlain(s: Sys, t: nat, q: nat)
    requires t < |s.tasks| && s.tasks[t].Plain? && Continue(s, t).Some? && !Offers(s, t, q)
    ensures ItemsOf(Continue(s, t).value, q) == ItemsOf(s, q)
  {
  }

  lemma TaskFifo(s: Sys, a: Act, q: nat)
    requires Shape(s.pool) && !a.Join? && !a.Leave? && !a.ResetCounters? && !a.Advance? && a.t < |s.tasks|
    requires TaskStep(s, a).Some?
    ensures ItemsOf(s, q) + In(s, a, q) == Out(s, a, q) + ItemsOf(TaskStep(s, a).value, q)
  {
  }

  /** One action: what was there and what came in is what went out and what is there. */
  lemma StepFifo(s: Sys, a: Act, q: nat)
    requires Shape(s.pool) && Step(s, a).Some?
    ensures ItemsOf(s, q) + In(s, a, q) == Out(s, a, q) + ItemsOf(Step(s, a).value, q)
  {
    match a {
      case Join(_) =>
      case Leave(_) =>
      case ResetCounters =>
      case Advance(t) => AdvanceFifo(s, t, q);
      case _ => TaskFifo(s, a, q);
    }
  }

  ghost function AllIn(s: Sys, acts: seq<Act>, q: nat): seq<Msg>
    requires Runs.Exec(Careful(), s, acts).Some?
    decreases |acts|
  {
    if acts == [] then [] else In(s, acts[0], q) + AllIn(Careful()(s, acts[0]).value, acts[1..], q)
  }

  ghost function AllOut(s: Sys, acts: seq<Act>, q: nat): seq<Msg>
    requires Runs.Exec(Careful(), s, acts).Some?
    decreases |acts|
  {
    if acts == [] then [] else Out(s, acts[0], q) + AllOut(Careful()(s, acts[0]).value, acts[1..], q)
  }

  lemma Onward(a: seq<Msg>, x: seq<Msg>, xs: seq<Msg>, y: seq<Msg>, ys: seq<Msg>, b: seq<Msg>, c: seq<Msg>)
    requires a + x == y + b && b + xs == ys + c
    ensures a + (x + xs) == (y + ys) + c
  {
    assert a + (x + xs) == (a + x) + xs == y + (b + xs);
    assert (y + ys) + c == y + (ys + c);
  }

  /** In every interleaving, what was put into a queue leaves it in the same order,
      nothing is lost or doubled in between, and the rest is still there. */
  lemma {:induction false} QueueIsFifo(s: Sys, acts: seq<Act>, q: nat)
    requires Runs.Exec(Careful(), s, acts).Some?
    ensures ItemsOf(s, q) + AllIn(s, acts, q) == AllOut(s, acts, q) + ItemsOf(Runs.Exec(Careful(), s, acts).value, q)
    decreases |acts|
  {
    if acts == [] {
      assert ItemsOf(s, q) + [] == [] + ItemsOf(s, q);
    } else {
      var u, rest := Careful()(s, acts[0]).value, acts[1..];
      StepFifo(s, acts[0], q);
      QueueIsFifo(u, rest, q);
      Onward(ItemsOf(s, q), In(s, acts[0], q), AllIn(u, rest, q), Out(s, acts[0], q), AllOut(u, rest, q),
             ItemsOf(u, q), ItemsOf(Runs.Exec(Careful(), s, acts).value, q));
    }
  }

  /** The schema guard stops a plain post exactly when the event is unknown, is a
      lease event, or takes no arguments and was given some; otherwise the message
      carries the event, its kind and both arguments to the subscribers of now. */
  lemma GuardStopsPlain(s: Sys, t: nat, ev: nat, a0: U32, a1: U32)
    requires Shape(s.pool) && !s.pool.aborted && !s.halted && t < |s.tasks| && s.tasks[t].Idle?
    ensures Step(s, Post(t, ev, a0, a1)).Some?
    ensures var u := Step(s, Post(t, ev, a0, a1)).value;
      && (u.halted <==>
            || ev >= |s.schema| || s.schema[ev].kind == LEASE
            || ((s.schema[ev].kind == NONE || s.schema[ev].kind == STREAM) && (a0 != 0 || a1 != 0)))
      && (u.halted ==> u == s.(halted := true))
      && (!u.halted ==>
            && u.tasks[t].Plain? && u.tasks[t].qos == s.schema[ev].qos
            && u.tasks[t].lp == Loop(Msg(ev, s.schema[ev].kind, a0, a1), s.subs, 0, Fanout(0, 0)))
  {
  }

  /** A lease post that the guard lets through carries the event, the packed handle
      and the length told to the subscribers of now; what the slot holds at this
      point is what was posted. */
  lemma LeaseCarries(s: Sys, t: nat, h: Handle, ev: nat, said: U16)
    requires Shape(s.pool) && !s.pool.aborted && !s.halted && t < |s.tasks| && s.tasks[t] == Filling(h)
    requires Step(s, PostLease(t, ev, said)).Some? && !Step(s, PostLease(t, ev, said)).value.halted
    ensures var u := Step(s, PostLease(t, ev, said)).value;
      && h.idx < |s.pool.slots| && u.pool == s.pool && u.queues == s.queues
      && u.posted == s.posted[h := Payload(s.pool.slots[h.idx].len, s.pool.slots[h.idx].buf)]
      && u.tasks == s.tasks[t := Fan(h, Loop(Msg(ev, LEASE, h.idx + h.gen * 0x1_0000, said), s.subs, 0, Fanout(0, 0)))]
  {
  }
}
