/** The event bus in place: subscriber table, fan-out loops and counters of
    core__ev, each call proved to do what its specification function says, and
    what those functions mean for the subscribers and for the lease. */
module BusObject {
  import opened Words
  import opened Wrappers
  import opened LeasePool
  import opened EventBus
  import LeaseRuns
  import LeaseObject

  // ----- specification of a fan-out -----

  function Deliver(q: Queue, depth: U16, m: Msg, qos: Qos): Queue {
    if qos == REPLACE_LAST && depth == 1 then Overwrite(q, m) else Send(q, m)
  }

  predicate Accepts(q: Queue, depth: U16, qos: Qos) {
    (qos == REPLACE_LAST && depth == 1) || !Full(q)
  }

  datatype Outcome = Outcome(pool: Pool, queues: seq<Queue>, fo: Fanout)

  function Visit(o: Outcome, sub: Sub, m: Msg, qos: Qos): Outcome {
    if sub.q.None? || sub.q.value >= |o.queues| then o
    else
      var q := sub.q.value;
      Outcome(o.pool, o.queues[q := Deliver(o.queues[q], sub.depth, m, qos)],
              if Accepts(o.queues[q], sub.depth, qos) then o.fo.(delivered := o.fo.delivered + 1)
              else o.fo.(enqFail := o.fo.enqFail + 1))
  }

  /** `ev_broadcast` over a snapshot. */
  function Cast(o: Outcome, local: seq<Sub>, m: Msg, qos: Qos): Outcome {
    if local == [] then o else Visit(Cast(o, local[..|local| - 1], m, qos), local[|local| - 1], m, qos)
  }

  /** Add a reference, send, take it back when the queue is full; when a guard of
      the pool aborts, nothing happens any more. */
  function VisitLease(o: Outcome, sub: Sub, m: Msg, h: Handle): Outcome {
    if o.pool.aborted || sub.q.None? || sub.q.value >= |o.queues| then o
    else
      var p := AddRef(o.pool, h, 1);
      if p.aborted then o.(pool := p)
      else
        var v := Visit(o.(pool := p), sub, m, DROP_NEW);
        if Accepts(o.queues[sub.q.value], sub.depth, DROP_NEW) then v else v.(pool := Release(p, h))
  }

  /** `ev_broadcast_lease` over a snapshot. */
  function CastLease(o: Outcome, local: seq<Sub>, m: Msg, h: Handle): Outcome {
    if local == [] then o else VisitLease(CastLease(o, local[..|local| - 1], m, h), local[|local| - 1], m, h)
  }

  /** Live subscribers name existing queues, no two the same. */
  ghost predicate Separate(local: seq<Sub>, queues: nat) {
    && (forall i :: 0 <= i < |local| && local[i].q.Some? ==> local[i].q.value < queues)
    && (forall i, j :: 0 <= i < j < |local| && local[i].q.Some? ==> local[j].q != local[i].q)
  }

  /** The queue takes a message of this quality: it has room, or is of depth 1 and
      the message replaces what it holds. */
  ghost predicate Takes(q: Queue, depth: U16, qos: Qos) {
    |q.items| < q.cap || (qos == REPLACE_LAST && depth == 1)
  }

  /** It has the message at its end, and with REPLACE_LAST at depth 1 nothing else;
      a full queue stays as it was. */
  ghost predicate Received(q: Queue, to: Queue, depth: U16, m: Msg, qos: Qos) {
    && to.cap == q.cap
    && to.items == (if qos == REPLACE_LAST && depth == 1 then [m] else if |q.items| < q.cap then q.items + [m] else q.items)
  }

  /** The live subscribers whose queue takes a message of this quality. */
  ghost function Takers(queues: seq<Queue>, local: seq<Sub>, qos: Qos): nat
    requires Separate(local, |queues|)
  {
    if local == [] then 0
    else
      var last := local[|local| - 1];
      Takers(queues, local[..|local| - 1], qos)
      + if last.q.Some? && Takes(queues[last.q.value], last.depth, qos) then 1 else 0
  }

  ghost predicate Unnamed(local: seq<Sub>, q: nat) {
    forall i :: 0 <= i < |local| ==> local[i].q != Some(q)
  }

  /** What a fan-out means: every live subscriber's queue gets the message once,
      or is left alone because it is full; every other queue is left alone; and
      the tally counts both kinds. */
  lemma {:induction false} CastMeans(o: Outcome, local: seq<Sub>, m: Msg, qos: Qos)
    requires Separate(local, |o.queues|) && o.fo == Fanout(0, 0)
    ensures var r := Cast(o, local, m, qos);
      && r.pool == o.pool && |r.queues| == |o.queues|
      && (forall i :: 0 <= i < |local| && local[i].q.Some? ==>
            Received(o.queues[local[i].q.value], r.queues[local[i].q.value], local[i].depth, m, qos))
      && (forall q :: 0 <= q < |o.queues| && Unnamed(local, q) ==> r.queues[q] == o.queues[q])
      && r.fo.delivered == Takers(o.queues, local, qos)
      && r.fo.delivered + r.fo.enqFail == LiveCount(local)
  {
    if local != [] {
      var n := |local| - 1;
      var init, last := local[..n], local[n];
      CastMeans(o, init, m, qos);
      var mid, r := Cast(o, init, m, qos), Cast(o, local, m, qos);
      if last.q.Some? {
        assert Unnamed(init, last.q.value);
      }
      forall q | 0 <= q < |o.queues| && Unnamed(local, q)
        ensures r.queues[q] == o.queues[q]
      {
        assert Unnamed(init, q) by {
          assert forall i :: 0 <= i < n ==> init[i] == local[i];
        }
        assert local[n].q != Some(q);
      }
      forall i | 0 <= i < |local| && local[i].q.Some?
        ensures Received(o.queues[local[i].q.value], r.queues[local[i].q.value], local[i].depth, m, qos)
      {
        if i < n {
          assert init[i] == local[i];
        }
      }
    }
  }

  /** The pool after n more references to h. */
  function WithRefs(p: Pool, h: Handle, n: nat): Pool {
    if h.idx < |p.slots| && p.slots[h.idx].refcnt + n <= 0xFFFF then
      p.(slots := p.slots[h.idx := p.slots[h.idx].(refcnt := p.slots[h.idx].refcnt + n)])
    else p
  }

  /** Taking the reference back after a failed send restores the pool. */
  lemma AddThenRelease(p: Pool, h: Handle)
    requires Usable(p, h) && p.slots[h.idx].refcnt < 0xFFFF
    ensures AddRef(p, h, 1) == WithRefs(p, h, 1)
    ensures Release(AddRef(p, h, 1), h) == p
  {
    var q := AddRef(p, h, 1);
    assert p.slots[h.idx := q.slots[h.idx]][h.idx := p.slots[h.idx]] == p.slots;
    assert q.slots[h.idx].(refcnt := p.slots[h.idx].refcnt) == p.slots[h.idx];
  }

  lemma WithMore(p: Pool, h: Handle, n: nat)
    requires Usable(p, h) && p.slots[h.idx].refcnt + n < 0xFFFF
    ensures Usable(WithRefs(p, h, n), h) && WithRefs(p, h, n).slots[h.idx].refcnt < 0xFFFF
    ensures WithRefs(WithRefs(p, h, n), h, 1) == WithRefs(p, h, n + 1)
  {
    var q := WithRefs(p, h, n);
    assert p.slots[h.idx := q.slots[h.idx]][h.idx := WithRefs(q, h, 1).slots[h.idx]]
        == p.slots[h.idx := WithRefs(q, h, 1).slots[h.idx]];
  }

  /** What the lease fan-out means: the queues and the tally are those of a plain
      fan-out, and the lease gained exactly one reference per copy delivered. */
  lemma {:induction false} CastLeaseMeans(o: Outcome, local: seq<Sub>, m: Msg, h: Handle)
    requires Usable(o.pool, h) && !o.pool.aborted && o.fo == Fanout(0, 0)
    requires o.pool.slots[h.idx].refcnt + |local| <= 0xFFFF
    ensures !CastLease(o, local, m, h).pool.aborted
    ensures var r, plain := CastLease(o, local, m, h), Cast(o, local, m, DROP_NEW);
      && r.queues == plain.queues && r.fo == plain.fo && r.fo.delivered <= |local|
      && r.pool == WithRefs(o.pool, h, r.fo.delivered)
  {
    if local == [] {
      assert WithRefs(o.pool, h, 0).slots == o.pool.slots;
    } else {
      var init := local[..|local| - 1];
      CastLeaseMeans(o, init, m, h);
      var mid := CastLease(o, init, m, h);
      WithMore(o.pool, h, mid.fo.delivered);
      VisitLeaseMeans(mid, local[|local| - 1], m, h);
      SameVisit(mid, Cast(o, init, m, DROP_NEW), local[|local| - 1], m);
    }
  }

  /** One subscriber: queue and tally as for a plain message, and one reference
      more if it took the message. */
  lemma VisitLeaseMeans(o: Outcome, sub: Sub, m: Msg, h: Handle)
    requires Usable(o.pool, h) && !o.pool.aborted && o.pool.slots[h.idx].refcnt < 0xFFFF
    ensures var r, plain := VisitLease(o, sub, m, h), Visit(o, sub, m, DROP_NEW);
      && r.queues == plain.queues && r.fo == plain.fo && !r.pool.aborted
      && o.fo.delivered <= r.fo.delivered <= o.fo.delivered + 1
      && r.pool == if r.fo.delivered > o.fo.delivered then WithRefs(o.pool, h, 1) else o.pool
  {
    AddThenRelease(o.pool, h);
  }

  /** What a subscriber gets does not depend on the pool. */
  lemma SameVisit(o: Outcome, p: Outcome, sub: Sub, m: Msg)
    requires o.queues == p.queues && o.fo == p.fo
    ensures Visit(o, sub, m, DROP_NEW).queues == Visit(p, sub, m, DROP_NEW).queues
    ensures Visit(o, sub, m, DROP_NEW).fo == Visit(p, sub, m, DROP_NEW).fo
  {
  }

  /** A lease post with a handle that is not live. With the pool's guards the first
      live subscriber brings the program to a stop and nothing is sent; without
      them, or with an index that names no slot, the dead handle is sent to all. */
  lemma {:induction false} CastLeaseStale(o: Outcome, local: seq<Sub>, m: Msg, h: Handle)
    requires Separate(local, |o.queues|) && !Live(o.pool, h) && !o.pool.aborted && o.fo == Fanout(0, 0)
    ensures var r := CastLease(o, local, m, h);
      if o.pool.guard && h.idx < |o.pool.slots| && LiveCount(local) > 0 then
        r == o.(pool := GuardFail(o.pool))
      else
        r == Cast(o, local, m, DROP_NEW) && r.pool == o.pool
  {
    if local != [] {
      var init := local[..|local| - 1];
      CastLeaseStale(o, init, m, h);
      CastPool(o, init, m, DROP_NEW);
      if LiveCount(init) == 0 {
        CastNone(o, init, m, DROP_NEW);
      }
    }
  }

  lemma {:induction false} CastNone(o: Outcome, local: seq<Sub>, m: Msg, qos: Qos)
    requires LiveCount(local) == 0
    ensures Cast(o, local, m, qos) == o
  {
    if local != [] {
      CastNone(o, local[..|local| - 1], m, qos);
    }
  }

  lemma {:induction false} CastPool(o: Outcome, local: seq<Sub>, m: Msg, qos: Qos)
    ensures Cast(o, local, m, qos).pool == o.pool && |Cast(o, local, m, qos).queues| == |o.queues|
  {
    if local != [] {
      CastPool(o, local[..|local| - 1], m, qos);
    }
  }

  lemma StillShaped(p: Pool, h: Handle)
    requires Shape(p)
    ensures Shape(AddRef(p, h, 1)) && Shape(Release(p, h))
  {
  }

  // ----- the bus -----

  class Bus {
    const schema: seq<Meta>
    const subs: array<Sub>
    var subsCnt: nat
    var qDepthMax: U16
    var ok: U32
    var drop: U32
    var enqFail: U32
    const evOk: array<U32>
    const evDrop: array<U32>
    const evEnqFail: array<U32>
    const evDelivered: array<U32>
    const pool: LeaseObject.SlotPool
    var queues: seq<Queue>
    var aborted: bool

    ghost function Counters(): Counters
      reads this, evOk, evDrop, evEnqFail, evDelivered
    {
      EventBus.Counters(ok, drop, enqFail, evOk[..], evDrop[..], evEnqFail[..], evDelivered[..])
    }

    ghost function Table(): Table
      reads this, subs
      requires subsCnt <= subs.Length
    {
      EventBus.Table(subs[..subsCnt], queues)
    }

    ghost predicate Valid()
      reads this, subs, pool, pool.slots, pool.free
    {
      && subsCnt <= subs.Length <= 0xFFFF
      && evOk.Length == evDrop.Length == evEnqFail.Length == evDelivered.Length == |schema|
      && evOk != evDrop && evOk != evEnqFail && evOk != evDelivered
      && evDrop != evEnqFail && evDrop != evDelivered && evEnqFail != evDelivered
      && pool.Sized() && Shape(pool.State())
      && Separate(subs[..subsCnt], |queues|)
    }

    constructor (schema: seq<Meta>, maxSubs: nat, pool: LeaseObject.SlotPool)
      requires maxSubs <= 0xFFFF && pool.Sized() && Shape(pool.State())
      ensures Valid() && this.pool == pool && this.schema == schema && subs.Length == maxSubs
      ensures subsCnt == 0 && queues == [] && !aborted
      ensures fresh(subs) && fresh(evOk) && fresh(evDrop) && fresh(evEnqFail) && fresh(evDelivered)
    {
      this.schema, this.pool := schema, pool;
      subs := new Sub[maxSubs](_ => Sub(None, 0));
      subsCnt, qDepthMax, ok, drop, enqFail := 0, 0, 0, 0, 0;
      evOk := new U32[|schema|](_ => 0);
      evDrop := new U32[|schema|](_ => 0);
      evEnqFail := new U32[|schema|](_ => 0);
      evDelivered := new U32[|schema|](_ => 0);
      queues, aborted := [], false;
    }

    /** `ev_init`: the queues of earlier subscribers stay allocated. */
    method Init()
      requires Valid()
      modifies this`subsCnt, this`qDepthMax, this`ok, this`drop, this`enqFail, subs, evOk, evDrop, evEnqFail, evDelivered
      ensures Valid() && subsCnt == 0 && qDepthMax == 0 && Counters() == Reset(|schema|)
      ensures forall i :: 0 <= i < subs.Length ==> subs[i].q.None?
    {
      for i := 0 to subs.Length
        invariant forall k :: 0 <= k < i ==> subs[k].q.None?
      {
        subs[i] := Sub(None, 0);
      }
      subsCnt, qDepthMax := 0, 0;
      ResetStats();
    }

    /** `ev_reset_stats` */
    method ResetStats()
      requires evOk.Length == evDrop.Length == evEnqFail.Length == evDelivered.Length == |schema|
      requires evOk != evDrop && evOk != evEnqFail && evOk != evDelivered
      requires evDrop != evEnqFail && evDrop != evDelivered && evEnqFail != evDelivered
      modifies this`ok, this`drop, this`enqFail, evOk, evDrop, evEnqFail, evDelivered
      ensures Counters() == Reset(|schema|)
    {
      ok, drop, enqFail := 0, 0, 0;
      Clear(evOk);
      Clear(evDrop);
      Clear(evEnqFail);
      Clear(evDelivered);
    }

    static method Clear(a: array<U32>)
      modifies a
      ensures a[..] == Zeros(a.Length)
    {
      for i := 0 to a.Length
        invariant a[..i] == Zeros(i)
      {
        a[i] := 0;
        assert a[..i + 1] == a[..i] + [0];
      }
    }

    /** `ev_subscribe` */
    method Subscribe(depth: nat) returns (r: Option<nat>)
      requires Valid()
      modifies this`subsCnt, this`qDepthMax, this`queues, subs
      ensures Valid()
      ensures (Table(), r) == EventBus.Subscribe(old(Table()), subs.Length, depth)
      ensures var d := if depth == 0 then 8 else depth;
        qDepthMax == if r.Some? && d > old(qDepthMax) then d % 0x1_0000 else old(qDepthMax)
    {
      var d := DepthOf(depth);
      r := None;
      if subsCnt < subs.Length {
        var q := |queues|;
        queues := queues + [Queue(d, [])];
        subs[subsCnt] := Sub(Some(q), d % U16_MOD);
        subsCnt := subsCnt + 1;
        if d > qDepthMax {
          qDepthMax := d % U16_MOD;
        }
        r := Some(q);
        assert subs[..subsCnt] == old(subs[..subsCnt]) + [Sub(Some(q), d % U16_MOD)];
      }
    }

    /** `ev_unsubscribe` */
    method Unsubscribe(q: nat) returns (found: bool)
      requires Valid()
      modifies subs
      ensures Valid()
      ensures Table() == EventBus.Unsubscribe(old(Table()), q)
      ensures found <==> exists i :: 0 <= i < subsCnt && old(subs[i]).q == Some(q)
    {
      ghost var was := subs[..subsCnt];
      var i := 0;
      while i < subsCnt
        invariant 0 <= i <= subsCnt && subs[..subsCnt] == was
        invariant forall k :: 0 <= k < i ==> was[k].q != Some(q)
      {
        if subs[i].q == Some(q) {
          FirstIs(was, q, i);
          subs[i] := subs[i].(q := None);
          assert subs[..subsCnt] == was[i := was[i].(q := None)];
          assert was[i].q == Some(q);
          return true;
        }
        i := i + 1;
      }
      FirstIs(was, q, i);
      found := false;
    }

    /** `ev_broadcast` */
    method Broadcast(m: Msg, qos: Qos) returns (fo: Fanout)
      requires Valid()
      modifies this`queues
      ensures Valid()
      ensures var r := Cast(Outcome(pool.State(), old(queues), Fanout(0, 0)), subs[..subsCnt], m, qos);
        queues == r.queues && fo == r.fo
    {
      var local := subs[..subsCnt];
      ghost var o := Outcome(pool.State(), queues, Fanout(0, 0));
      fo := Fanout(0, 0);
      for i := 0 to |local|
        invariant Cast(o, local[..i], m, qos) == Outcome(o.pool, queues, fo)
        invariant |queues| == |o.queues|
      {
        assert local[..i + 1][..i] == local[..i];
        if local[i].q.Some? {
          var q := local[i].q.value;
          if qos == REPLACE_LAST && local[i].depth == 1 {
            queues := queues[q := Overwrite(queues[q], m)];
            fo := fo.(delivered := fo.delivered + 1);
          } else if !Full(queues[q]) {
            queues := queues[q := queues[q].(items := queues[q].items + [m])];
            fo := fo.(delivered := fo.delivered + 1);
          } else {
            assert queues[q := queues[q]] == queues;
            fo := fo.(enqFail := fo.enqFail + 1);
          }
        }
      }
      assert local[..|local|] == local;
    }

    /** One turn of the loop of `ev_broadcast_lease`, for a live subscriber. */
    method Offer(sub: Sub, m: Msg, h: Handle, before: Fanout) returns (fo: Fanout)
      requires pool.Sized() && Shape(pool.State()) && !pool.aborted
      requires sub.q.Some? && sub.q.value < |queues|
      modifies this`queues, pool, pool.slots, pool.free
      ensures pool.Sized() && Shape(pool.State()) && |queues| == |old(queues)|
      ensures Outcome(pool.State(), queues, fo)
           == VisitLease(Outcome(old(pool.State()), old(queues), before), sub, m, h)
    {
      var q := sub.q.value;
      fo := before;
      StillShaped(pool.State(), h);
      pool.AddRef(h, 1);
      if pool.aborted {
        return;
      }
      if !Full(queues[q]) {
        queues := queues[q := queues[q].(items := queues[q].items + [m])];
        fo := fo.(delivered := fo.delivered + 1);
      } else {
        assert queues[q := queues[q]] == queues;
        fo := fo.(enqFail := fo.enqFail + 1);
        StillShaped(pool.State(), h);
        pool.Release(h);
      }
    }

    /** `ev_broadcast_lease` */
    method BroadcastLease(m: Msg, h: Handle) returns (fo: Fanout)
      requires Valid()
      modifies this`queues, pool, pool.slots, pool.free
      ensures Valid()
      ensures Outcome(pool.State(), queues, fo)
           == CastLease(Outcome(old(pool.State()), old(queues), Fanout(0, 0)), subs[..subsCnt], m, h)
    {
      var local := subs[..subsCnt];
      ghost var o := Outcome(pool.State(), queues, Fanout(0, 0));
      fo := Fanout(0, 0);
      for i := 0 to |local|
        invariant CastLease(o, local[..i], m, h) == Outcome(pool.State(), queues, fo)
        invariant |queues| == |o.queues| && pool.Sized() && Shape(pool.State())
      {
        assert local[..i + 1][..i] == local[..i];
        if local[i].q.Some? && !pool.aborted {
          fo := Offer(local[i], m, h, fo);
        }
      }
      assert local[..|local|] == local;
    }

    /** The critical section that ends a post. */
    method Tell(ev: nat, fo: Fanout)
      requires Valid() && ev < |schema|
      modifies this`ok, this`drop, this`enqFail, evOk, evDrop, evEnqFail, evDelivered
      ensures Counters() == Count(old(Counters()), ev, fo)
    {
      if fo.enqFail > 0 {
        enqFail := Add32(enqFail, fo.enqFail);
        evEnqFail[ev] := Add32(evEnqFail[ev], fo.enqFail);
      }
      if fo.delivered > 0 {
        ok := Add32(ok, 1);
        evOk[ev] := Add32(evOk[ev], 1);
        evDelivered[ev] := Add32(evDelivered[ev], fo.delivered);
      } else {
        drop := Add32(drop, 1);
        evDrop[ev] := Add32(evDrop[ev], 1);
      }
    }

    /** `ev_post`, with the schema guard: either the guard aborts and nothing else
        happens, or the message is cast to the current subscribers and counted. */
    method Post(src: U16, code: U16, a0: U32, a1: U32) returns (sent: bool)
      requires Valid()
      modifies this`queues, this`aborted, this`ok, this`drop, this`enqFail, evOk, evDrop, evEnqFail, evDelivered
      ensures Valid()
      ensures var ev := Position(schema, src, code);
        if !PlainAccepted(schema, ev, a0, a1) then
          aborted && queues == old(queues) && Counters() == old(Counters())
        else
          var m := Msg(ev, schema[ev].kind, a0, a1);
          var r := Cast(Outcome(pool.State(), old(queues), Fanout(0, 0)), subs[..subsCnt], m, schema[ev].qos);
          && aborted == old(aborted) && queues == r.queues
          && Counters() == Count(old(Counters()), ev, r.fo) && sent == (r.fo.delivered > 0)
    {
      var meta := MetaFind(schema, src, code);
      sent := false;
      if meta.None? || schema[meta.value].kind == LEASE {
        aborted := true;
        return;
      }
      var ev := meta.value;
      if (schema[ev].kind == NONE || schema[ev].kind == STREAM) && (a0 != 0 || a1 != 0) {
        aborted := true;
        return;
      }
      var fo := Broadcast(Msg(ev, schema[ev].kind, a0, a1), schema[ev].qos);
      Tell(ev, fo);
      sent := fo.delivered > 0;
    }

    /** The schema guard of `ev_post_lease`; on a violation it aborts. */
    method RequireLease(src: U16, code: U16, packed: U32) returns (meta: Option<nat>)
      modifies this`aborted
      ensures var ev := Position(schema, src, code);
        if LeaseEvent(schema, ev) && packed != 0 then meta == Some(ev) && aborted == old(aborted)
        else meta == None && aborted
    {
      meta := MetaFind(schema, src, code);
      if meta.None? || schema[meta.value].kind != LEASE || schema[meta.value].qos != DROP_NEW || packed == 0 {
        aborted := true;
        meta := None;
      }
    }

    /** `ev_post_lease`, with the schema guard. A guard of the schema or of the pool
        that aborts ends the call there. */
    method PostLease(src: U16, code: U16, h: Handle, len: U16) returns (sent: bool)
      requires Valid() && !pool.aborted
      modifies this`queues, this`aborted, this`ok, this`drop, this`enqFail, evOk, evDrop, evEnqFail, evDelivered
      modifies pool, pool.slots, pool.free
      ensures Valid()
      ensures var ev := Position(schema, src, code);
        if !LeaseEvent(schema, ev) || LeaseRuns.Pack(h) == 0 then
          aborted && queues == old(queues) && Counters() == old(Counters()) && pool.State() == old(pool.State())
        else
          var r := CastLease(Outcome(old(pool.State()), old(queues), Fanout(0, 0)), subs[..subsCnt],
                             Msg(ev, LEASE, LeaseRuns.Pack(h), len), h);
          var p := if r.pool.aborted then r.pool else Release(r.pool, h);
          && aborted == old(aborted) && queues == r.queues && pool.State() == p
          && (if p.aborted then Counters() == old(Counters())
              else Counters() == Count(old(Counters()), ev, r.fo) && sent == (r.fo.delivered > 0))
    {
      var packed := LeaseRuns.Pack(h);
      var meta := RequireLease(src, code, packed);
      sent := false;
      if meta.None? {
        return;
      }
      var fo := CastAndRelease(Msg(meta.value, LEASE, packed, len), h);
      if pool.aborted {
        return;
      }
      Tell(meta.value, fo);
      sent := fo.delivered > 0;
    }

    /** The fan-out of a lease and the release of the poster's own reference. */
    method CastAndRelease(m: Msg, h: Handle) returns (fo: Fanout)
      requires Valid()
      modifies this`queues, pool, pool.slots, pool.free
      ensures Valid()
      ensures var r := CastLease(Outcome(old(pool.State()), old(queues), Fanout(0, 0)), subs[..subsCnt], m, h);
        queues == r.queues && fo == r.fo && pool.State() == if r.pool.aborted then r.pool else Release(r.pool, h)
    {
      fo := BroadcastLease(m, h);
      if pool.aborted {
        return;
      }
      StillShaped(pool.State(), h);
      pool.Release(h);
    }

    /** `ev_get_stats`, the number of live subscribers */
    method Active() returns (n: nat)
      requires Valid()
      ensures n == LiveCount(subs[..subsCnt])
    {
      n := 0;
      for i := 0 to subsCnt
        invariant n == LiveCount(subs[..i])
      {
        assert subs[..i + 1][..i] == subs[..i];
        if subs[i].q.Some? {
          n := n + 1;
        }
      }
    }
  }

  /** What a lease post leaves of the pool: the poster's reference has become one
      reference per delivered copy, and a lease delivered to nobody that had no
      other holder is free again. */
  lemma PostLeaseRefs(o: Outcome, local: seq<Sub>, m: Msg, h: Handle)
    requires PoolInv(o.pool) && Live(o.pool, h) && !o.pool.aborted && o.fo == Fanout(0, 0)
    requires o.pool.slots[h.idx].refcnt + |local| <= 0xFFFF
    ensures var r := CastLease(o, local, m, h); var p := Release(r.pool, h);
      && |p.slots| == |o.pool.slots| && PoolInv(p)
      && p.slots[h.idx].refcnt == o.pool.slots[h.idx].refcnt + r.fo.delivered - 1
      && (Live(p, h) <==> o.pool.slots[h.idx].refcnt + r.fo.delivered > 1)
      && (forall i :: 0 <= i < |p.slots| && i != h.idx ==> p.slots[i] == o.pool.slots[i])
  {
    var r := CastLease(o, local, m, h);
    assert SlotOk(o.pool, h.idx);
    CastLeaseMeans(o, local, m, h);
    SlotChanged(o.pool, h.idx, r.pool.slots[h.idx]);
    ReleaseInv(r.pool, h);
    RoomOnFreeList(r.pool, h);
    assert SlotOk(r.pool, h.idx);
  }

  lemma {:induction false} FirstIs(subs: seq<Sub>, q: nat, i: nat)
    requires i <= |subs| && (forall k :: 0 <= k < i ==> subs[k].q != Some(q))
    requires i < |subs| ==> subs[i].q == Some(q)
    ensures FirstOf(subs, q) == i
  {
    if i > 0 {
      FirstIs(subs[1..], q, i - 1);
    }
  }
}
