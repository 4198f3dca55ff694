/** The event bus (core__ev): subscriptions, bounded queues, fan-out and the
    delivery counters. The functions are shared with the interleaving model. */
module EventBus {
  import opened Words
  import opened Wrappers

  datatype Kind = NONE | COPY | LEASE | STREAM
  datatype Qos = DROP_NEW | REPLACE_LAST

  datatype Meta = Meta(src: U16, code: U16, kind: Kind, qos: Qos)

  /** `ev` is the index of the event in the schema, standing for (src, code). */
  datatype Msg = Msg(ev: nat, kind: Kind, a0: U32, a1: U32)

  /** A slot of the subscriber table; None is the NULL queue of an unsubscribed one. */
  datatype Sub = Sub(q: Option<nat>, depth: U16)

  /** A FreeRTOS queue of `cap` messages. */
  datatype Queue = Queue(cap: nat, items: seq<Msg>)

  datatype Fanout = Fanout(delivered: nat, enqFail: nat)

  datatype Counters = Counters(
    ok: U32, drop: U32, enqFail: U32,
    evOk: seq<U32>, evDrop: seq<U32>, evEnqFail: seq<U32>, evDelivered: seq<U32>)

  // ----- schema lookup -----

  /** The position of the first entry with this source and code, or |schema|. */
  function Position(schema: seq<Meta>, src: U16, code: U16): (r: nat)
    ensures r <= |schema|
    ensures r < |schema| ==> schema[r].src == src && schema[r].code == code
    ensures forall k :: 0 <= k < r ==> schema[k].src != src || schema[k].code != code
  {
    if schema == [] || (schema[0].src == src && schema[0].code == code) then 0
    else 1 + Position(schema[1..], src, code)
  }

  /** `ev_meta_find` */
  method MetaFind(schema: seq<Meta>, src: U16, code: U16) returns (r: Option<nat>)
    ensures r == if Position(schema, src, code) < |schema| then Some(Position(schema, src, code)) else None
  {
    for i := 0 to |schema|
      invariant forall k :: 0 <= k < i ==> schema[k].src != src || schema[k].code != code
    {
      if schema[i].src == src && schema[i].code == code {
        return Some(i);
      }
    }
    r := None;
  }

  // ----- queues -----

  predicate Full(q: Queue) {
    |q.items| >= q.cap
  }

  /** `xQueueSend` with no waiting: appends, unless the queue is full. */
  function Send(q: Queue, m: Msg): Queue {
    if Full(q) then q else q.(items := q.items + [m])
  }

  /** `xQueueOverwrite` on a queue of one: replaces what it holds. */
  function Overwrite(q: Queue, m: Msg): Queue {
    q.(items := [m])
  }

  /** The subscribers that a fan-out over this snapshot still reaches. */
  function LiveCount(local: seq<Sub>): nat {
    if local == [] then 0
    else LiveCount(local[..|local| - 1]) + if local[|local| - 1].q.Some? then 1 else 0
  }

  // ----- subscription table -----

  datatype Table = Table(subs: seq<Sub>, queues: seq<Queue>)

  /** The depth of a new queue: 0 stands for the default. */
  function DepthOf(depth: nat): nat {
    if depth == 0 then 8 else depth
  }

  /** Subscriptions name existing queues. */
  ghost predicate SubsOk(subs: seq<Sub>, queues: nat) {
    forall i :: 0 <= i < |subs| && subs[i].q.Some? ==> subs[i].q.value < queues
  }

  function Subscribe(t: Table, maxSubs: nat, depth: nat): (Table, Option<nat>) {
    var d := DepthOf(depth);
    if |t.subs| < maxSubs then
      (Table(t.subs + [Sub(Some(|t.queues|), d % U16_MOD)], t.queues + [Queue(d, [])]), Some(|t.queues|))
    else (t, None)
  }

  function FirstOf(subs: seq<Sub>, q: nat): (i: nat)
    ensures i <= |subs|
  {
    if subs == [] || subs[0].q == Some(q) then 0 else 1 + FirstOf(subs[1..], q)
  }

  function Unsubscribe(t: Table, q: nat): Table {
    var i := FirstOf(t.subs, q);
    if i < |t.subs| then t.(subs := t.subs[i := t.subs[i].(q := None)]) else t
  }

  /** A subscriber is added iff the table has room: a live one, last, with a new
      and empty queue of the depth asked for, 0 meaning 8; every earlier entry and
      queue stays. The table records the depth in 16 bits. */
  lemma SubscribeMeans(t: Table, maxSubs: nat, depth: nat)
    ensures var (u, r) := Subscribe(t, maxSubs, depth);
      if |t.subs| >= maxSubs then u == t && r == None
      else
        && r == Some(|t.queues|) && |u.subs| == |t.subs| + 1 && |u.queues| == |t.queues| + 1
        && u.subs[..|t.subs|] == t.subs && u.queues[..|t.queues|] == t.queues
        && u.subs[|t.subs|].q == r && u.queues[r.value].items == []
        && u.queues[r.value].cap == (if depth == 0 then 8 else depth)
        && u.subs[|t.subs|].depth == (if depth == 0 then 8 else depth) % 0x1_0000
        && LiveCount(u.subs) == LiveCount(t.subs) + 1
  {
    var (u, r) := Subscribe(t, maxSubs, depth);
    if |t.subs| < maxSubs {
      assert u.subs[..|t.subs|] == t.subs;
    }
  }

  /** A queue after these sends, none of them waiting. */
  function SendAll(q: Queue, ms: seq<Msg>): Queue {
    if ms == [] then q else Send(SendAll(q, ms[..|ms| - 1]), ms[|ms| - 1])
  }

  /** A queue takes messages in order until it holds its capacity, and refuses the
      rest. */
  lemma {:induction false} TakesInOrder(q: Queue, ms: seq<Msg>)
    requires |q.items| <= q.cap
    ensures SendAll(q, ms).cap == q.cap
    ensures SendAll(q, ms).items == (q.items + ms)[..Min(q.cap, |q.items| + |ms|)]
  {
    if ms == [] {
      assert (q.items + [])[..|q.items|] == q.items;
    } else {
      var init, last := ms[..|ms| - 1], ms[|ms| - 1];
      TakesInOrder(q, init);
      assert q.items + ms == (q.items + init) + [last];
    }
  }

  /** A new subscriber that reads nothing takes exactly as many messages as it
      asked for, the first ones, before the next is refused. */
  lemma DepthTaken(t: Table, maxSubs: nat, depth: nat, ms: seq<Msg>)
    requires |t.subs| < maxSubs
    ensures var d := if depth == 0 then 8 else depth;
      SendAll(Subscribe(t, maxSubs, depth).0.queues[|t.queues|], ms).items == if |ms| <= d then ms else ms[..d]
  {
    var q := Subscribe(t, maxSubs, depth).0.queues[|t.queues|];
    TakesInOrder(q, ms);
    assert [] + ms == ms;
  }

  ghost function Names(subs: seq<Sub>): set<Option<nat>> {
    set i | 0 <= i < |subs| :: subs[i].q
  }

  lemma {:induction false} FirstOfMeans(subs: seq<Sub>, q: nat)
    ensures var i := FirstOf(subs, q);
      && (i < |subs| ==> subs[i].q == Some(q))
      && forall k :: 0 <= k < i ==> subs[k].q != Some(q)
  {
    if subs != [] && subs[0].q != Some(q) {
      FirstOfMeans(subs[1..], q);
    }
  }

  lemma {:induction false} LiveCleared(subs: seq<Sub>, i: nat)
    requires i < |subs| && subs[i].q.Some?
    ensures LiveCount(subs[i := subs[i].(q := None)]) == LiveCount(subs) - 1
    decreases |subs|
  {
    var n := |subs| - 1;
    var to := subs[i := subs[i].(q := None)];
    if i == n {
      assert to[..n] == subs[..n];
    } else {
      LiveCleared(subs[..n], i);
      assert to[..n] == subs[..n][i := subs[..n][i].(q := None)];
    }
  }

  /** The first entry of the queue. */
  ghost predicate IsFirst(subs: seq<Sub>, q: nat, i: nat) {
    i < |subs| && subs[i].q == Some(q) && forall k :: 0 <= k < i ==> subs[k].q != Some(q)
  }

  /** Unsubscribing clears the first entry of the queue and nothing else; the
      number of live subscribers drops by one iff there was such an entry, and if
      there was only one the queue is named no more. */
  lemma UnsubscribeMeans(t: Table, q: nat)
    ensures var u := Unsubscribe(t, q);
      && u.queues == t.queues && |u.subs| == |t.subs|
      && LiveCount(u.subs) == LiveCount(t.subs) - (if Some(q) in Names(t.subs) then 1 else 0)
      && (forall k: nat :: k < |t.subs| ==>
            u.subs[k] == if IsFirst(t.subs, q, k) then Sub(None, t.subs[k].depth) else t.subs[k])
      && ((forall j, k :: 0 <= j < k < |t.subs| && t.subs[j].q == Some(q) ==> t.subs[k].q != Some(q)) ==>
            Some(q) !in Names(u.subs))
  {
    FirstOfMeans(t.subs, q);
    var i := FirstOf(t.subs, q);
    if i < |t.subs| {
      LiveCleared(t.subs, i);
      assert t.subs[i].q in Names(t.subs);
    }
  }

  /** What the schema guard accepts for a lease. */
  predicate LeaseEvent(schema: seq<Meta>, ev: nat) {
    ev < |schema| && schema[ev].kind == LEASE && schema[ev].qos == DROP_NEW
  }

  /** What it accepts for any other event. */
  predicate PlainAccepted(schema: seq<Meta>, ev: nat, a0: U32, a1: U32) {
    && ev < |schema| && schema[ev].kind != LEASE
    && (schema[ev].kind == NONE || schema[ev].kind == STREAM ==> a0 == 0 && a1 == 0)
  }

  // ----- statistics -----

  function Zeros(n: nat): seq<U32> {
    if n == 0 then [] else Zeros(n - 1) + [0]
  }

  function Reset(events: nat): Counters {
    Counters(0, 0, 0, Zeros(events), Zeros(events), Zeros(events), Zeros(events))
  }

  function Bump(s: seq<U32>, k: nat, n: nat): seq<U32> {
    if k < |s| then s[k := Add32(s[k], n)] else s
  }

  /** The critical section that ends a post of event `ev`. */
  function Count(c: Counters, ev: nat, fo: Fanout): Counters {
    var c1 := c.(enqFail := Add32(c.enqFail, fo.enqFail), evEnqFail := Bump(c.evEnqFail, ev, fo.enqFail));
    if fo.delivered > 0 then
      c1.(ok := Add32(c.ok, 1), evOk := Bump(c.evOk, ev, 1), evDelivered := Bump(c.evDelivered, ev, fo.delivered))
    else
      c1.(drop := Add32(c.drop, 1), evDrop := Bump(c.evDrop, ev, 1))
  }

  /** A completed post: its event, its outcome and the snapshot it fanned out to. */
  datatype Done = Done(ev: nat, fo: Fanout, local: seq<Sub>)

  /** The counters after these posts since the last reset. */
  function Tally(events: nat, posts: seq<Done>): Counters {
    if posts == [] then Reset(events)
    else
      var last := posts[|posts| - 1];
      Count(Tally(events, posts[..|posts| - 1]), last.ev, last.fo)
  }

  ghost function Sum(s: seq<U32>): nat {
    if s == [] then 0 else Sum(s[..|s| - 1]) + s[|s| - 1]
  }

  /** Each global counter is the sum of its per-event counters, modulo 2^32. */
  ghost predicate Balanced(c: Counters) {
    && c.ok == Sum(c.evOk) % U32_MOD
    && c.drop == Sum(c.evDrop) % U32_MOD
    && c.enqFail == Sum(c.evEnqFail) % U32_MOD
  }

  ghost predicate Sized(c: Counters, events: nat) {
    |c.evOk| == |c.evDrop| == |c.evEnqFail| == |c.evDelivered| == events
  }

  lemma {:induction false} SumBump(s: seq<U32>, k: nat, n: nat)
    requires k < |s|
    ensures Sum(Bump(s, k, n)) % U32_MOD == (Sum(s) + n) % U32_MOD
    decreases |s|
  {
    var t := Bump(s, k, n);
    if k == |s| - 1 {
      assert t[..|t| - 1] == s[..|s| - 1];
      var rest := Sum(s[..|s| - 1]);
      WrapTerm(rest, s[k] + n);
    } else {
      assert t[..|t| - 1] == Bump(s[..|s| - 1], k, n);
      SumBump(s[..|s| - 1], k, n);
      var a, b := Sum(t[..|t| - 1]), Sum(s[..|s| - 1]) + n;
      SameRemainder(a, b, s[|s| - 1]);
    }
  }

  lemma WrapTerm(rest: nat, x: nat)
    ensures (rest + x % U32_MOD) % U32_MOD == (rest + x) % U32_MOD
  {
  }

  lemma AddTo(c: U32, total: nat, n: nat)
    requires c == total % U32_MOD
    ensures Add32(c, n) == (total + n) % U32_MOD
  {
  }

  lemma SameRemainder(a: nat, b: nat, c: nat)
    requires a % U32_MOD == b % U32_MOD
    ensures (a + c) % U32_MOD == (b + c) % U32_MOD
  {
    WrapTerm(c, a);
    WrapTerm(c, b);
  }

  lemma {:induction false} SumZeros(n: nat)
    ensures Sum(Zeros(n)) == 0 && |Zeros(n)| == n
  {
    if n > 0 {
      SumZeros(n - 1);
    }
  }

  lemma CountBalanced(c: Counters, events: nat, ev: nat, fo: Fanout)
    requires Balanced(c) && Sized(c, events) && ev < events
    ensures Balanced(Count(c, ev, fo)) && Sized(Count(c, ev, fo), events)
  {
    SumBump(c.evEnqFail, ev, fo.enqFail);
    AddTo(c.enqFail, Sum(c.evEnqFail), fo.enqFail);
    if fo.delivered > 0 {
      SumBump(c.evOk, ev, 1);
      AddTo(c.ok, Sum(c.evOk), 1);
    } else {
      SumBump(c.evDrop, ev, 1);
      AddTo(c.drop, Sum(c.evDrop), 1);
    }
  }

  /** How many of the posts were delivered to someone. */
  ghost function Delivered(posts: seq<Done>): nat {
    if posts == [] then 0
    else Delivered(posts[..|posts| - 1]) + if posts[|posts| - 1].fo.delivered > 0 then 1 else 0
  }

  /** All queue copies of one event that were delivered. */
  ghost function Copies(posts: seq<Done>, ev: nat): nat {
    if posts == [] then 0
    else Copies(posts[..|posts| - 1], ev) + if posts[|posts| - 1].ev == ev then posts[|posts| - 1].fo.delivered else 0
  }

  /** How many posts of one event reached somebody, or nobody. */
  ghost function PostsOf(posts: seq<Done>, ev: nat, reached: bool): nat {
    if posts == [] then 0
    else
      var last := posts[|posts| - 1];
      PostsOf(posts[..|posts| - 1], ev, reached) + if last.ev == ev && (last.fo.delivered > 0) == reached then 1 else 0
  }

  /** The refused copies of one event, and of all events. */
  ghost function RefusedOf(posts: seq<Done>, ev: nat): nat {
    if posts == [] then 0
    else RefusedOf(posts[..|posts| - 1], ev) + if posts[|posts| - 1].ev == ev then posts[|posts| - 1].fo.enqFail else 0
  }

  ghost function Refused(posts: seq<Done>): nat {
    if posts == [] then 0 else Refused(posts[..|posts| - 1]) + posts[|posts| - 1].fo.enqFail
  }

  /** Every post is booked under its own event and under no other. */
  ghost predicate Booked(c: Counters, posts: seq<Done>, ev: nat) {
    && ev < |c.evOk| == |c.evDrop| == |c.evEnqFail| == |c.evDelivered|
    && c.evOk[ev] == PostsOf(posts, ev, true) % 0x1_0000_0000
    && c.evDrop[ev] == PostsOf(posts, ev, false) % 0x1_0000_0000
    && c.evEnqFail[ev] == RefusedOf(posts, ev) % 0x1_0000_0000
    && c.evDelivered[ev] == Copies(posts, ev) % 0x1_0000_0000
  }

  ghost predicate Known(posts: seq<Done>, events: nat) {
    forall i :: 0 <= i < |posts| ==> posts[i].ev < events
  }

  /** Since the last reset the global counters balance the per-event ones. */
  lemma {:induction false} TallyBalances(events: nat, posts: seq<Done>)
    requires Known(posts, events)
    ensures Balanced(Tally(events, posts)) && Sized(Tally(events, posts), events)
  {
    if posts == [] {
      SumZeros(events);
    } else {
      var init, last := posts[..|posts| - 1], posts[|posts| - 1];
      TallyBalances(events, init);
      CountBalanced(Tally(events, init), events, last.ev, last.fo);
    }
  }

  /** Every completed post is counted once: in ok if it reached a queue, else in drop. */
  lemma {:induction false} TallyCountsPosts(events: nat, posts: seq<Done>)
    ensures Delivered(posts) <= |posts|
    ensures Tally(events, posts).ok == Delivered(posts) % U32_MOD
    ensures Tally(events, posts).drop == (|posts| - Delivered(posts)) % U32_MOD
  {
    if posts != [] {
      var init := posts[..|posts| - 1];
      TallyCountsPosts(events, init);
      AddTo(Tally(events, init).ok, Delivered(init), 1);
      AddTo(Tally(events, init).drop, |init| - Delivered(init), 1);
    }
  }

  /** The counters of an event since the last reset: its posts that reached
      somebody, those that reached nobody, its refused and its delivered copies. */
  lemma {:induction false} TallyBooks(events: nat, posts: seq<Done>, ev: nat)
    requires ev < events
    ensures Booked(Tally(events, posts), posts, ev)
  {
    if posts == [] {
      ZeroAt(events, ev);
    } else {
      var init, last := posts[..|posts| - 1], posts[|posts| - 1];
      TallyBooks(events, init, ev);
      var c := Tally(events, init);
      AddTo(c.evOk[ev], PostsOf(init, ev, true), 1);
      AddTo(c.evDrop[ev], PostsOf(init, ev, false), 1);
      AddTo(c.evEnqFail[ev], RefusedOf(init, ev), last.fo.enqFail);
      AddTo(c.evDelivered[ev], Copies(init, ev), last.fo.delivered);
    }
  }

  lemma {:induction false} TallyRefused(events: nat, posts: seq<Done>)
    ensures Tally(events, posts).enqFail == Refused(posts) % 0x1_0000_0000
  {
    if posts != [] {
      var init := posts[..|posts| - 1];
      TallyRefused(events, init);
      AddTo(Tally(events, init).enqFail, Refused(init), posts[|posts| - 1].fo.enqFail);
    }
  }

  /** The delivered counter of an event adds up its queue copies. */
  lemma {:induction false} TallyCountsCopies(events: nat, posts: seq<Done>, ev: nat)
    requires ev < events
    ensures |Tally(events, posts).evDelivered| == events
    ensures Tally(events, posts).evDelivered[ev] == Copies(posts, ev) % U32_MOD
  {
    TallySized(events, posts);
    TallyBooks(events, posts, ev);
  }

  lemma {:induction false} TallySized(events: nat, posts: seq<Done>)
    ensures Sized(Tally(events, posts), events)
  {
    if posts == [] {
      SumZeros(events);
    } else {
      TallySized(events, posts[..|posts| - 1]);
    }
  }

  lemma {:induction false} ZeroAt(n: nat, k: nat)
    requires k < n
    ensures |Zeros(n)| == n && Zeros(n)[k] == 0
  {
    SumZeros(n - 1);
    if k < n - 1 {
      ZeroAt(n - 1, k);
    }
  }
}
