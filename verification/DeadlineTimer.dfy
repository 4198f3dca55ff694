/** The deadline timer service (services__timer): many one-shot and periodic
    deadlines multiplexed onto one hardware one-shot. Time is in microseconds,
    and no 64-bit overflow is assumed. */
module DeadlineTimer {
  import opened Words
  import opened Wrappers

  datatype Event = Event(src: U16, code: U16, a0: U32, a1: U32)

  /** `period` 0 is a one-shot. */
  datatype Slot = Slot(active: bool, gen: U16, due: nat, period: nat, ev: Event)

  /** The hardware one-shot. */
  datatype Port = Off | Running(at: nat)

  /** `s_armed`, `s_due_us` and the hardware timer they stand for. */
  datatype Alarm = Alarm(armed: bool, due: nat, port: Port)

  // ----- tokens -----

  function NextGen(g: U16): (r: U16)
    ensures r != 0
  {
    if (g + 1) % U16_MOD == 0 then 1 else (g + 1) % U16_MOD
  }

  function TokenMake(idx: nat, gen: U16): U32
    requires idx < 0xFFFF
  {
    gen * 0x1_0000 + (idx + 1)
  }

  function TokenParse(tok: U32, slots: nat): Option<(nat, U16)> {
    var lo := tok % 0x1_0000;
    if lo == 0 || lo - 1 >= slots then None else Some((lo - 1, tok / 0x1_0000))
  }

  /** A token names its slot and generation, is never 0, and nothing else parses to them. */
  lemma TokenRoundTrip(idx: nat, gen: U16, slots: nat, tok: U32)
    requires idx < slots <= 0xFFFF
    ensures TokenMake(idx, gen) != 0
    ensures TokenMake(idx, gen) % 0x1_0000 == idx + 1 && TokenMake(idx, gen) / 0x1_0000 == gen
    ensures TokenParse(TokenMake(idx, gen), slots) == Some((idx, gen))
    ensures TokenParse(tok, slots) == Some((idx, gen)) ==> tok == TokenMake(idx, gen)
    ensures TokenParse(0, slots) == None
  {
    var t := TokenMake(idx, gen);
    ModUnique(t, 0x1_0000, gen, idx + 1);
  }

  ghost function GenAfter(g: U16, n: nat): U16
    decreases n
  {
    if n == 0 then g else GenAfter(NextGen(g), n - 1)
  }

  /** Arming a slot n times brings a generation back iff n is a multiple of
      65535: the counter skips 0. */
  lemma {:induction false} GenCycle(g: U16, n: nat)
    requires g != 0
    ensures GenAfter(g, n) == (g - 1 + n) % 0xFFFF + 1
    decreases n
  {
    if n > 0 {
      GenCycle(NextGen(g), n - 1);
      if g == 0xFFFF {
        ModMore(n - 1);
      }
    }
  }

  lemma ModMore(k: nat)
    ensures (k + 0xFFFF) % 0xFFFF == k % 0xFFFF
  {
  }

  lemma GenReturns(g: U16, n: nat)
    requires g != 0
    ensures GenAfter(g, n) == g <==> n % 0xFFFF == 0
  {
    GenCycle(g, n);
    var q, r := n / 0xFFFF, n % 0xFFFF;
    if g - 1 + r < 0xFFFF {
      ModUnique(g - 1 + n, 0xFFFF, q, g - 1 + r);
    } else {
      ModUnique(g - 1 + n, 0xFFFF, q + 1, g - 1 + r - 0xFFFF);
    }
  }

  // ----- periodic deadlines -----

  function NextDue(prev: nat, period: nat, now: nat): nat
    requires period > 0
  {
    var next := prev + period;
    if next <= now then next + ((now - next) / period + 1) * period else next
  }

  ghost predicate OnGrid(first: nat, period: nat, x: nat) {
    x >= first && (period > 0 ==> (x - first) % period == 0) && (period == 0 ==> x == first)
  }

  /** The formula moves on by a whole number of periods. */
  lemma NextDueSteps(prev: nat, period: nat, now: nat) returns (n: nat)
    requires period > 0 && prev <= now
    ensures NextDue(prev, period, now) == prev + n * period
    ensures n > 0 && now < NextDue(prev, period, now) <= now + period
  {
    var next := prev + period;
    if next <= now {
      var q := (now - next) / period;
      n := 1 + (q + 1);
      Spread(1, q + 1, period);
      Spread(q, 1, period);
      assert now - next == q * period + (now - next) % period;
    } else {
      n := 1;
    }
  }

  lemma GridSteps(first: nat, period: nat, x: nat, n: nat)
    requires period > 0 && OnGrid(first, period, x)
    ensures OnGrid(first, period, x + n * period)
  {
    var k := (x - first) / period;
    assert x - first == k * period;
    Spread(k, n, period);
    ModUnique(x + n * period - first, period, k + n, 0);
  }

  /** The catch-up formula gives the one point of the grid in (now, now + period]. */
  lemma NextDueOnGrid(first: nat, period: nat, prev: nat, now: nat)
    requires period > 0 && OnGrid(first, period, prev) && prev <= now
    ensures var r := NextDue(prev, period, now);
      && OnGrid(first, period, r) && prev < r && now < r <= now + period
      && forall x: nat :: OnGrid(first, period, x) && now < x <= now + period ==> x == r
  {
    var r := NextDue(prev, period, now);
    var n := NextDueSteps(prev, period, now);
    GridSteps(first, period, prev, n);
    forall x: nat | OnGrid(first, period, x) && now < x <= now + period
      ensures x == r
    {
      SameWindow(r - first, x - first, period);
    }
  }

  lemma Spread(a: nat, b: nat, p: nat)
    ensures (a + b) * p == a * p + b * p
  {
  }

  /** Two multiples of p less than p apart are equal. */
  lemma SameWindow(a: nat, b: nat, p: nat)
    requires p > 0 && a % p == 0 && b % p == 0 && a < b + p && b < a + p
    ensures a == b
  {
    var x, y := a / p, b / p;
    assert a == x * p && b == y * p;
    if x > y {
      MulLe(1, x - y, p);
      Spread(y, x - y, p);
    } else if y > x {
      MulLe(1, y - x, p);
      Spread(x, y - x, p);
    }
  }

  // ----- the earliest deadline -----

  function Earliest(slots: seq<Slot>): Option<nat> {
    if slots == [] then None
    else
      var last, rest := slots[|slots| - 1], Earliest(slots[..|slots| - 1]);
      if last.active && (rest.None? || last.due < rest.value) then Some(last.due) else rest
  }

  ghost predicate AnyActive(slots: seq<Slot>) {
    exists i :: 0 <= i < |slots| && slots[i].active
  }

  /** The minimum over the active slots, if there are any. */
  lemma {:induction false} EarliestMeans(slots: seq<Slot>)
    ensures Earliest(slots).Some? <==> AnyActive(slots)
    ensures Earliest(slots).Some? ==> exists i :: 0 <= i < |slots| && slots[i].active && slots[i].due == Earliest(slots).value
    ensures forall i :: 0 <= i < |slots| && slots[i].active ==> Earliest(slots).Some? && Earliest(slots).value <= slots[i].due
  {
    if slots != [] {
      var n := |slots| - 1;
      EarliestMeans(slots[..n]);
      if Earliest(slots[..n]).Some? {
        var i :| 0 <= i < n && slots[..n][i].active && slots[..n][i].due == Earliest(slots[..n]).value;
        assert slots[i].active && slots[i].due == Earliest(slots[..n]).value;
      }
      if AnyActive(slots) && !slots[n].active {
        var i :| 0 <= i < |slots| && slots[i].active;
        assert slots[..n][i].active;
      }
      assert slots[n].active ==> AnyActive(slots);
    }
  }

  /** `arm_earliest_locked_`; `now` is the clock as the caller read it, `clock`
      the time at which the hardware timer is started. */
  function Rearm(slots: seq<Slot>, al: Alarm, now: nat, clock: nat, startOk: bool): Alarm {
    match Earliest(slots)
    case None => if al.armed then Alarm(false, 0, Off) else al
    case Some(d) =>
      if al.armed && d == al.due then al
      else if startOk then Alarm(true, d, Running(clock + if d > now then d - now else 1))
      else Alarm(false, 0, Off)
  }

  /** d is the earliest deadline of an active slot. */
  ghost predicate IsEarliest(slots: seq<Slot>, d: nat) {
    && (exists i :: 0 <= i < |slots| && slots[i].active && slots[i].due == d)
    && (forall i :: 0 <= i < |slots| && slots[i].active ==> d <= slots[i].due)
  }

  /** Rearming stops the hardware timer once no deadline is left, leaves it alone if
      it is set for the earliest one, and otherwise starts it to go off after the
      time left until then, at least 1 us. */
  lemma RearmMeans(slots: seq<Slot>, al: Alarm, now: nat, clock: nat, startOk: bool, d: nat)
    ensures !AnyActive(slots) ==>
      Rearm(slots, al, now, clock, startOk) == if al.armed then Alarm(false, 0, Off) else al
    ensures IsEarliest(slots, d) ==>
      Rearm(slots, al, now, clock, startOk)
      == if al.armed && al.due == d then al
         else if !startOk then Alarm(false, 0, Off)
         else Alarm(true, d, Running(if d > now then clock + (d - now) else clock + 1))
  {
    EarliestMeans(slots);
  }

  // ----- the callback -----

  predicate IsDue(s: Slot, now: nat) {
    s.active && s.due <= now
  }

  function After(s: Slot, now: nat): Slot {
    if !IsDue(s, now) then s
    else if s.period == 0 then s.(active := false)
    else s.(due := NextDue(s.due, s.period, now))
  }

  function AllAfter(slots: seq<Slot>, now: nat): (r: seq<Slot>)
    ensures |r| == |slots| && forall i :: 0 <= i < |slots| ==> r[i] == After(slots[i], now)
  {
    seq(|slots|, i requires 0 <= i < |slots| => After(slots[i], now))
  }

  /** The slots that fire, in slot order. */
  function Fires(slots: seq<Slot>, now: nat): seq<nat> {
    if slots == [] then []
    else Fires(slots[..|slots| - 1], now) + if IsDue(slots[|slots| - 1], now) then [|slots| - 1] else []
  }

  /** Each due slot fires exactly once, the others not at all, in slot order. */
  lemma {:induction false} FiresMeans(slots: seq<Slot>, now: nat)
    ensures forall k :: 0 <= k < |Fires(slots, now)| ==> Fires(slots, now)[k] < |slots| && IsDue(slots[Fires(slots, now)[k]], now)
    ensures forall i: nat :: i in Fires(slots, now) <==> i < |slots| && IsDue(slots[i], now)
    ensures forall j, k :: 0 <= j < k < |Fires(slots, now)| ==> Fires(slots, now)[j] < Fires(slots, now)[k]
  {
    if slots != [] {
      var n := |slots| - 1;
      FiresMeans(slots[..n], now);
      var init, f := Fires(slots[..n], now), Fires(slots, now);
      forall k | 0 <= k < |f|
        ensures f[k] < |slots| && IsDue(slots[f[k]], now)
      {
        if k < |init| {
          assert f[k] == init[k] && slots[..n][init[k]] == slots[init[k]];
        }
      }
      forall i: nat
        ensures i in f <==> i < |slots| && IsDue(slots[i], now)
      {
        assert i in f <==> i in init || (i == n && IsDue(slots[n], now));
        assert i < n ==> slots[..n][i] == slots[i];
      }
    }
  }

  /** The events they post. */
  function FireEvents(slots: seq<Slot>, now: nat): seq<Event> {
    if slots == [] then []
    else FireEvents(slots[..|slots| - 1], now) + if IsDue(slots[|slots| - 1], now) then [slots[|slots| - 1].ev] else []
  }

  lemma {:induction false} FireEventsMeans(slots: seq<Slot>, now: nat)
    ensures |FireEvents(slots, now)| == |Fires(slots, now)|
    ensures forall k :: 0 <= k < |Fires(slots, now)| ==>
      Fires(slots, now)[k] < |slots| && FireEvents(slots, now)[k] == slots[Fires(slots, now)[k]].ev
  {
    if slots != [] {
      FireEventsMeans(slots[..|slots| - 1], now);
    }
  }

  function FreeSlot(slots: seq<Slot>): (i: nat)
    ensures i <= |slots| && (i < |slots| ==> !slots[i].active)
    ensures forall k :: 0 <= k < i ==> slots[k].active
  {
    if slots == [] || !slots[0].active then 0 else 1 + FreeSlot(slots[1..])
  }

  function Armed(slots: seq<Slot>, i: nat, due: nat, period: nat, ev: Event): seq<Slot>
    requires i < |slots|
  {
    slots[i := Slot(true, NextGen(slots[i].gen), due, period, ev)]
  }
}
