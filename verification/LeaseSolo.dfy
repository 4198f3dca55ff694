/** A post that nobody interrupts: the steps of the interleaving model add up to
    exactly what the call in place does, so both describe the same code. */
module LeaseSolo {
  import opened Wrappers
  import opened LeasePool
  import opened LeaseLedger
  import opened EventBus
  import opened LeaseMachine
  import opened LeaseSafety
  import opened BusObject

  function Again(f: Sys -> Option<Sys>, s: Sys, k: nat): Option<Sys>
    decreases k
  {
    if k == 0 then Some(s)
    else
      match f(s)
      case None => None
      case Some(u) => Again(f, u, k - 1)
  }

  lemma {:induction false} AgainAdd(f: Sys -> Option<Sys>, s: Sys, j: nat, k: nat)
    requires Again(f, s, j).Some?
    ensures Again(f, s, j + k) == Again(f, Again(f, s, j).value, k)
    decreases j
  {
    if j > 0 {
      AgainAdd(f, f(s).value, j - 1, k);
    }
  }

  lemma AgainNext(f: Sys -> Option<Sys>, s: Sys, j: nat, u: Sys, v: Sys)
    requires Again(f, s, j) == Some(u) && f(u) == Some(v)
    ensures Again(f, s, j + 1) == Some(v)
  {
    AgainAdd(f, s, j, 1);
    assert Again(f, v, 0) == Some(v);
  }

  /** One step of task t's post; after an abort of a pool guard there is none. */
  function StepOf(t: nat): Sys -> Option<Sys> {
    (s: Sys) => if t < |s.tasks| && !s.pool.aborted then Continue(s, t) else None
  }

  /** Task t takes k steps of its post in a row. */
  function InARow(s: Sys, t: nat, k: nat): Option<Sys> {
    Again(StepOf(t), s, k)
  }

  ghost predicate Reaches(s: Sys, t: nat, u: Sys) {
    exists k: nat :: InARow(s, t, k) == Some(u)
  }

  lemma ReachesSelf(s: Sys, t: nat)
    ensures Reaches(s, t, s)
  {
    assert InARow(s, t, 0) == Some(s);
  }

  lemma ReachesNext(s: Sys, t: nat, u: Sys, v: Sys)
    requires Reaches(s, t, u) && t < |u.tasks| && !u.pool.aborted && Continue(u, t) == Some(v)
    ensures Reaches(s, t, v)
  {
    var j: nat :| InARow(s, t, j) == Some(u);
    AgainNext(StepOf(t), s, j, u, v);
    assert InARow(s, t, j + 1) == Some(v);
  }

  function OutcomeOf(s: Sys, fo: Fanout): Outcome {
    Outcome(s.pool, s.queues, fo)
  }

  /** After n subscribers of a lease fan-out: the pool and the queues are those of
      the call in place, and unless a guard aborted the loop stands at subscriber n. */
  ghost predicate LeaseAt(s: Sys, u: Sys, t: nat, h: Handle, l: Loop, n: nat)
    requires t < |s.tasks| && n <= |l.local|
  {
    var o := CastLease(OutcomeOf(s, l.fo), l.local[..n], l.msg, h);
    && u.pool == o.pool && u.queues == o.queues && |u.queues| == |s.queues|
    && (!o.pool.aborted ==> u == Put(s.(pool := o.pool, queues := o.queues), t, Fan(h, l.(i := n, fo := o.fo))))
  }

  lemma Reput(tasks: seq<Phase>, t: nat, x: Phase, y: Phase)
    requires t < |tasks|
    ensures tasks[t := x][t := y] == tasks[t := y]
  {
  }

  lemma SkipRound(s: Sys, u: Sys, t: nat, h: Handle, l: Loop, n: nat) returns (v: Sys)
    requires t < |s.tasks| && n < |l.local| && l.i == 0 && l.local[n].q.None?
    requires Reaches(s, t, u) && LeaseAt(s, u, t, h, l, n) && !u.pool.aborted
    ensures Reaches(s, t, v) && LeaseAt(s, v, t, h, l, n + 1)
  {
    assert l.local[..n + 1][..n] == l.local[..n];
    var o := CastLease(OutcomeOf(s, l.fo), l.local[..n], l.msg, h);
    var at := l.(i := n, fo := o.fo);
    v := Put(u, t, Fan(h, Skip(at)));
    ReachesNext(s, t, u, v);
    Reput(s.tasks, t, u.tasks[t], v.tasks[t]);
  }

  lemma OfferRound(s: Sys, u: Sys, t: nat, h: Handle, l: Loop, n: nat) returns (v: Sys)
    requires t < |s.tasks| && n < |l.local| && l.i == 0 && l.local[n].q.Some? && l.local[n].q.value < |s.queues|
    requires Reaches(s, t, u) && LeaseAt(s, u, t, h, l, n) && !u.pool.aborted
    ensures Reaches(s, t, v) && LeaseAt(s, v, t, h, l, n + 1)
  {
    assert l.local[..n + 1][..n] == l.local[..n];
    var o := CastLease(OutcomeOf(s, l.fo), l.local[..n], l.msg, h);
    v := LiveRound(s, u, t, h, l.(i := n, fo := o.fo), l.local[n].q.value);
    Reput(s.tasks, t, u.tasks[t], v.tasks[t]);
  }

  /** One subscriber takes one, two or three steps. */
  lemma LeaseRound(s: Sys, u: Sys, t: nat, h: Handle, l: Loop, n: nat) returns (v: Sys)
    requires t < |s.tasks| && n < |l.local| && l.i == 0 && SubsOk(l.local, |s.queues|)
    requires Reaches(s, t, u) && LeaseAt(s, u, t, h, l, n)
    ensures Reaches(s, t, v) && LeaseAt(s, v, t, h, l, n + 1)
  {
    if u.pool.aborted {
      assert l.local[..n + 1][..n] == l.local[..n];
      v := u;
    } else if l.local[n].q.None? {
      v := SkipRound(s, u, t, h, l, n);
    } else {
      v := OfferRound(s, u, t, h, l, n);
    }
  }

  /** A live subscriber: reference, send, and the reference back if the queue is full. */
  lemma LiveRound(s: Sys, u: Sys, t: nat, h: Handle, l: Loop, q: nat) returns (v: Sys)
    requires t < |u.tasks| && u.tasks[t] == Fan(h, l) && l.i < |l.local| && !u.pool.aborted && Reaches(s, t, u)
    requires l.local[l.i].q == Some(q) && q < |u.queues|
    ensures Reaches(s, t, v) && |v.queues| == |u.queues| && |v.tasks| == |u.tasks|
    ensures var o := VisitLease(OutcomeOf(u, l.fo), l.local[l.i], l.msg, h);
      && v.pool == o.pool && v.queues == o.queues
      && (!o.pool.aborted ==> v == Put(u.(pool := o.pool, queues := o.queues), t, Fan(h, l.(i := l.i + 1, fo := o.fo))))
  {
    var added := AddRef(u.pool, h, 1);
    v := Put(u.(pool := added), t, Sending(h, l));
    ReachesNext(s, t, u, v);
    if !added.aborted {
      v := Sent(s, v, t, h, l, q);
    }
  }

  lemma Sent(s: Sys, u: Sys, t: nat, h: Handle, l: Loop, q: nat) returns (v: Sys)
    requires t < |u.tasks| && u.tasks[t] == Sending(h, l) && l.i < |l.local| && !u.pool.aborted && Reaches(s, t, u)
    requires l.local[l.i].q == Some(q) && q < |u.queues|
    ensures Reaches(s, t, v)
    ensures v == if Full(u.queues[q]) then Put(u.(pool := Release(u.pool, h)), t, Fan(h, Miss(l)))
                 else Put(u.(queues := u.queues[q := Send(u.queues[q], l.msg)]), t, Fan(h, Hit(l)))
  {
    if Full(u.queues[q]) {
      var w := Put(u, t, Undoing(h, l));
      ReachesNext(s, t, u, w);
      v := Put(w.(pool := Release(w.pool, h)), t, Fan(h, Miss(l)));
      ReachesNext(s, t, w, v);
      assert v.tasks == u.tasks[t := Fan(h, Miss(l))];
    } else {
      v := Put(u.(queues := u.queues[q := Send(u.queues[q], l.msg)]), t, Fan(h, Hit(l)));
      ReachesNext(s, t, u, v);
    }
  }

  lemma {:induction false} LeaseFan(s: Sys, t: nat, h: Handle, l: Loop, n: nat) returns (u: Sys)
    requires t < |s.tasks| && s.tasks[t] == Fan(h, l) && l.i == 0 && n <= |l.local| && SubsOk(l.local, |s.queues|)
    ensures Reaches(s, t, u) && LeaseAt(s, u, t, h, l, n)
    decreases n
  {
    if n == 0 {
      u := s;
      ReachesSelf(s, t);
      assert s.tasks[t := s.tasks[t]] == s.tasks;
    } else {
      var before := LeaseFan(s, t, h, l, n - 1);
      u := LeaseRound(s, before, t, h, l, n - 1);
    }
  }

  /** From the snapshot on, an uninterrupted lease post ends with the queues, the
      pool and the counters that `Bus.PostLease` computes, or stops where it stops. */
  lemma SoloLeasePost(s: Sys, t: nat, h: Handle, l: Loop) returns (u: Sys)
    requires t < |s.tasks| && s.tasks[t] == Fan(h, l) && l.i == 0 && SubsOk(l.local, |s.queues|)
    ensures var o := CastLease(OutcomeOf(s, l.fo), l.local, l.msg, h);
      var p := if o.pool.aborted then o.pool else Release(o.pool, h);
      && Reaches(s, t, u) && u.pool == p && u.queues == o.queues
      && (!p.aborted ==>
            u == Put(s.(pool := p, queues := o.queues, counters := Count(s.counters, l.msg.ev, o.fo),
                        done := s.done + [Done(l.msg.ev, o.fo, l.local)]), t, Idle))
  {
    u := LeaseFan(s, t, h, l, |l.local|);
    assert l.local[..|l.local|] == l.local;
    if !u.pool.aborted {
      var o := CastLease(OutcomeOf(s, l.fo), l.local, l.msg, h);
      var d := Done(l.msg.ev, o.fo, l.local);
      var v := Put(u.(pool := Release(o.pool, h)), t, Counting(d));
      ReachesNext(s, t, u, v);
      u := v;
      if !v.pool.aborted {
        u := Put(v.(counters := Count(v.counters, d.ev, d.fo), done := v.done + [d]), t, Idle);
        ReachesNext(s, t, v, u);
        assert u.tasks == s.tasks[t := Idle];
      }
    }
  }

  /** The references travelling in the queues, and those overwritten so far. */
  ghost function InQueues(s: Sys): Refs {
    Total(QueueStakes(s.queues)) + s.lost
  }

  ghost predicate PlainAt(s: Sys, u: Sys, t: nat, qos: Qos, l: Loop, n: nat)
    requires t < |s.tasks| && n <= |l.local|
  {
    var o := Cast(OutcomeOf(s, l.fo), l.local[..n], l.msg, qos);
    && |u.queues| == |s.queues| && o.pool == s.pool && (l.msg.kind != LEASE ==> InQueues(u) == InQueues(s))
    && u == Put(s.(queues := o.queues, lost := u.lost), t, Plain(qos, l.(i := n, fo := o.fo)))
  }

  lemma OverwroteRefs(u: Sys, t: nat, q: nat, m: Msg, ph: Phase)
    requires t < |u.tasks| && q < |u.queues| && m.kind != LEASE
    ensures InQueues(Replaced(u, t, q, m, ph)) == InQueues(u)
  {
    var to := Overwrite(u.queues[q], m);
    OneQueue(u.queues, q, to);
    assert to.items[..0] == [];
    assert ItemRefs(to.items) == multiset{};
    Moved(Total(QueueStakes(u.queues[q := to])), ItemRefs(u.queues[q].items), Total(QueueStakes(u.queues)), u.lost);
  }

  lemma SentRefs(u: Sys, t: nat, q: nat, m: Msg, ph: Phase)
    requires t < |u.tasks| && q < |u.queues| && m.kind != LEASE && !Full(u.queues[q])
    ensures InQueues(Put(u.(queues := u.queues[q := Send(u.queues[q], m)]), t, ph)) == InQueues(u)
  {
    Appended(u.queues[q].items, m);
    OneQueue(u.queues, q, Send(u.queues[q], m));
    assert MsgRefs(m) == multiset{};
    Cancel(Total(QueueStakes(u.queues[q := Send(u.queues[q], m)])), Total(QueueStakes(u.queues)), ItemRefs(u.queues[q].items));
  }

  /** Sending a message without a lease moves no reference, overwriting loses those
      that were there. */
  lemma PlainMoves(u: Sys, t: nat, qos: Qos, l: Loop)
    requires t < |u.tasks| && u.tasks[t] == Plain(qos, l) && l.msg.kind != LEASE && Continue(u, t).Some?
    ensures InQueues(Continue(u, t).value) == InQueues(u)
  {
    if AtLive(l) {
      var q, hit := l.local[l.i].q.value, Plain(qos, Hit(l));
      if Overwrites(qos, l) {
        OverwroteRefs(u, t, q, l.msg, hit);
        assert Continue(u, t) == Some(Replaced(u, t, q, l.msg, hit));
      } else if !Full(u.queues[q]) {
        SentRefs(u, t, q, l.msg, hit);
      }
    }
  }

  lemma PlainRound(s: Sys, u: Sys, t: nat, qos: Qos, l: Loop, n: nat) returns (v: Sys)
    requires t < |s.tasks| && n < |l.local| && l.i == 0 && SubsOk(l.local, |s.queues|) && !s.pool.aborted
    requires Reaches(s, t, u) && PlainAt(s, u, t, qos, l, n)
    ensures Reaches(s, t, v) && PlainAt(s, v, t, qos, l, n + 1)
  {
    assert l.local[..n + 1][..n] == l.local[..n];
    v := PlainVisit(u, t, qos, u.tasks[t].lp);
    if l.msg.kind != LEASE {
      PlainMoves(u, t, qos, u.tasks[t].lp);
    }
    ReachesNext(s, t, u, v);
    Reput(s.tasks, t, u.tasks[t], v.tasks[t]);
  }

  /** One turn of a plain fan-out. */
  lemma PlainVisit(u: Sys, t: nat, qos: Qos, l: Loop) returns (v: Sys)
    requires t < |u.tasks| && u.tasks[t] == Plain(qos, l) && l.i < |l.local|
    requires l.local[l.i].q.Some? ==> l.local[l.i].q.value < |u.queues|
    ensures Continue(u, t) == Some(v)
    ensures var o := Visit(OutcomeOf(u, l.fo), l.local[l.i], l.msg, qos);
      && o.pool == u.pool && |o.queues| == |u.queues|
      && v == Put(u.(queues := o.queues, lost := v.lost), t, Plain(qos, l.(i := l.i + 1, fo := o.fo)))
  {
    v := Continue(u, t).value;
    if l.local[l.i].q.Some? {
      var q := l.local[l.i].q.value;
      assert u.queues[q := u.queues[q]] == u.queues;
    }
  }

  lemma {:induction false} PlainFan(s: Sys, t: nat, qos: Qos, l: Loop, n: nat) returns (u: Sys)
    requires t < |s.tasks| && s.tasks[t] == Plain(qos, l) && l.i == 0 && n <= |l.local| && SubsOk(l.local, |s.queues|)
    requires !s.pool.aborted
    ensures Reaches(s, t, u) && PlainAt(s, u, t, qos, l, n)
    decreases n
  {
    if n == 0 {
      u := s;
      ReachesSelf(s, t);
      assert s.tasks[t := s.tasks[t]] == s.tasks;
    } else {
      var before := PlainFan(s, t, qos, l, n - 1);
      u := PlainRound(s, before, t, qos, l, n - 1);
    }
  }

  /** The same for a post without a lease and `Bus.Post`; whatever lease reference
      leaves a queue by being overwritten is recorded as lost, and no other. */
  lemma SoloPost(s: Sys, t: nat, qos: Qos, l: Loop) returns (u: Sys)
    requires t < |s.tasks| && s.tasks[t] == Plain(qos, l) && l.i == 0 && SubsOk(l.local, |s.queues|)
    requires !s.pool.aborted
    ensures var o := Cast(OutcomeOf(s, l.fo), l.local, l.msg, qos);
      && Reaches(s, t, u) && o.pool == s.pool && (l.msg.kind != LEASE ==> InQueues(u) == InQueues(s))
      && u == Put(s.(queues := o.queues, counters := Count(s.counters, l.msg.ev, o.fo),
                     done := s.done + [Done(l.msg.ev, o.fo, l.local)], lost := u.lost), t, Idle)
  {
    var end := PlainFan(s, t, qos, l, |l.local|);
    assert l.local[..|l.local|] == l.local;
    var o := Cast(OutcomeOf(s, l.fo), l.local, l.msg, qos);
    var d := Done(l.msg.ev, o.fo, l.local);
    var v := Put(end, t, Counting(d));
    ReachesNext(s, t, end, v);
    u := Put(v.(counters := Count(v.counters, d.ev, d.fo), done := v.done + [d]), t, Idle);
    ReachesNext(s, t, v, u);
    assert u.tasks == s.tasks[t := Idle];
  }
}
