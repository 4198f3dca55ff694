/** The timer service in place: the slot array and the alarm, each call proved
    to do what the functions of `DeadlineTimer` say. The clock reads are
    parameters, and so is whether the hardware timer starts. */
module TimerObject {
  import opened Words
  import opened Wrappers
  import opened DeadlineTimer

  class Service {
    const slots: array<Slot>
    var armed: bool
    var due: nat
    var port: Port

    ghost function Alarm(): Alarm
      reads this
    {
      DeadlineTimer.Alarm(armed, due, port)
    }

    ghost predicate Sized()
      reads this
    {
      0 < slots.Length <= 0xFFFF
    }

    /** `services_timer_start` */
    constructor (maxSlots: nat)
      requires 0 < maxSlots <= 0xFFFF
      ensures Sized() && slots.Length == maxSlots && fresh(slots)
      ensures Alarm() == DeadlineTimer.Alarm(false, 0, Off)
      ensures forall i :: 0 <= i < maxSlots ==> !slots[i].active && slots[i].gen == 0
    {
      slots := new Slot[maxSlots](_ => Slot(false, 0, 0, 0, Event(0, 0, 0, 0)));
      armed, due, port := false, 0, Off;
    }

    /** `find_earliest_due_locked_` */
    method FindEarliest() returns (best: Option<nat>)
      ensures best == Earliest(slots[..])
    {
      best := None;
      for i := 0 to slots.Length
        invariant best == Earliest(slots[..i])
      {
        assert slots[..i + 1][..i] == slots[..i];
        if slots[i].active && (best.None? || slots[i].due < best.value) {
          best := Some(slots[i].due);
        }
      }
      assert slots[..slots.Length] == slots[..];
    }

    method CancelPort()
      modifies this`port
      ensures port == Off
    {
      port := Off;
    }

    /** `timer_start_oneshot` */
    method StartPort(clock: nat, delay: nat, startOk: bool)
      modifies this`port
      ensures port == if startOk then Running(clock + delay) else old(port)
    {
      if startOk {
        port := Running(clock + delay);
      }
    }

    /** `arm_earliest_locked_` */
    method ArmEarliest(now: nat, clock: nat, startOk: bool)
      modifies this
      ensures Alarm() == Rearm(slots[..], old(Alarm()), now, clock, startOk)
    {
      var next := FindEarliest();
      if next.None? {
        if armed {
          CancelPort();
          armed, due := false, 0;
        }
        return;
      }
      if armed && next.value == due {
        return;
      }
      var delay := if next.value > now then next.value - now else 1;
      if delay == 0 {
        delay := 1;
      }
      CancelPort();
      StartPort(clock, delay, startOk);
      if !startOk {
        armed, due := false, 0;
        return;
      }
      armed, due := true, next.value;
    }

    method FindFree() returns (i: nat)
      ensures i == FreeSlot(slots[..])
    {
      i := 0;
      while i < slots.Length && slots[i].active
        invariant i <= slots.Length && forall k :: 0 <= k < i ==> slots[k].active
      {
        i := i + 1;
      }
      FirstFree(slots[..], i);
    }

    /** The common part of the two arm calls. */
    method Arm(now: nat, delay: nat, period: nat, ev: Event, clock: nat, startOk: bool) returns (tok: U32)
      requires Sized()
      modifies this, slots
      ensures var i := FreeSlot(old(slots[..]));
        if i == slots.Length then
          tok == 0 && slots[..] == old(slots[..]) && Alarm() == old(Alarm())
        else
          && slots[..] == Armed(old(slots[..]), i, now + delay, period, ev)
          && tok == TokenMake(i, slots[i].gen)
          && Alarm() == Rearm(slots[..], old(Alarm()), now, clock, startOk)
    {
      ghost var was := slots[..];
      var i := FindFree();
      if i >= slots.Length {
        return 0;
      }
      var gen := (slots[i].gen + 1) % U16_MOD;
      if gen == 0 {
        gen := 1;
      }
      slots[i] := Slot(true, gen, now + delay, period, ev);
      assert slots[..] == Armed(was, i, now + delay, period, ev);
      ArmEarliest(now, clock, startOk);
      tok := TokenMake(i, gen);
    }

    /** `services_timer_arm_once_us` */
    method ArmOnce(delay: nat, ev: Event, now: nat, clock: nat, startOk: bool) returns (tok: U32)
      requires Sized()
      modifies this, slots
      ensures var i := FreeSlot(old(slots[..]));
        var d := if delay == 0 then 1 else delay;
        if i == slots.Length then
          tok == 0 && slots[..] == old(slots[..]) && Alarm() == old(Alarm())
        else
          && slots[..] == Armed(old(slots[..]), i, now + d, 0, ev)
          && tok == TokenMake(i, slots[i].gen)
          && Alarm() == Rearm(slots[..], old(Alarm()), now, clock, startOk)
    {
      tok := Arm(now, if delay == 0 then 1 else delay, 0, ev, clock, startOk);
    }

    /** `services_timer_arm_periodic_us` */
    method ArmPeriodic(period: nat, ev: Event, now: nat, clock: nat, startOk: bool) returns (tok: U32)
      requires Sized()
      modifies this, slots
      ensures var i := FreeSlot(old(slots[..]));
        if period == 0 || i == slots.Length then
          tok == 0 && slots[..] == old(slots[..]) && Alarm() == old(Alarm())
        else
          && slots[..] == Armed(old(slots[..]), i, now + period, period, ev)
          && tok == TokenMake(i, slots[i].gen)
          && Alarm() == Rearm(slots[..], old(Alarm()), now, clock, startOk)
    {
      if period == 0 {
        return 0;
      }
      tok := Arm(now, period, period, ev, clock, startOk);
    }

    /** `services_timer_is_active` */
    method IsActive(tok: U32) returns (r: bool)
      requires Sized()
      ensures r == Accepts(slots[..], tok)
    {
      var p := TokenParse(tok, slots.Length);
      r := p.Some? && slots[p.value.0].active && slots[p.value.0].gen == p.value.1;
    }

    /** `services_timer_cancel` */
    method Cancel(tok: U32, now: nat, clock: nat, startOk: bool) returns (found: bool)
      requires Sized()
      modifies this, slots
      ensures found == Accepts(old(slots[..]), tok)
      ensures if found then
          && slots[..] == Disarmed(old(slots[..]), TokenParse(tok, slots.Length).value.0)
          && Alarm() == Rearm(slots[..], old(Alarm()), now, clock, startOk)
        else slots[..] == old(slots[..]) && Alarm() == old(Alarm())
    {
      ghost var was := slots[..];
      var p := TokenParse(tok, slots.Length);
      if p.None? {
        return false;
      }
      var i := p.value.0;
      if !slots[i].active || slots[i].gen != p.value.1 {
        return false;
      }
      slots[i] := slots[i].(active := false);
      assert slots[..] == Disarmed(was, i);
      ArmEarliest(now, clock, startOk);
      found := true;
    }

    /** `timer_cb_`, up to the posts that follow the critical section. */
    method Callback(now: nat, clock: nat, startOk: bool) returns (fires: seq<Event>)
      modifies this, slots
      ensures slots[..] == AllAfter(old(slots[..]), now)
      ensures fires == FireEvents(old(slots[..]), now)
      ensures Alarm() == Rearm(slots[..], DeadlineTimer.Alarm(false, 0, old(port)), now, clock, startOk)
    {
      ghost var was := slots[..];
      armed, due := false, 0;
      fires := [];
      for i := 0 to slots.Length
        invariant !armed && due == 0 && port == old(port)
        invariant forall k :: 0 <= k < i ==> slots[k] == After(was[k], now)
        invariant forall k :: i <= k < slots.Length ==> slots[k] == was[k]
        invariant fires == FireEvents(was[..i], now)
      {
        assert was[..i + 1][..i] == was[..i];
        var s := slots[i];
        if s.active && s.due <= now {
          fires := fires + [s.ev];
          if s.period == 0 {
            slots[i] := s.(active := false);
          } else {
            slots[i] := s.(due := NextDue(s.due, s.period, now));
          }
        }
      }
      assert was[..slots.Length] == was;
      assert slots[..] == AllAfter(was, now);
      ArmEarliest(now, clock, startOk);
    }
  }

  ghost predicate Accepts(slots: seq<Slot>, tok: U32) {
    var p := TokenParse(tok, |slots|);
    p.Some? && slots[p.value.0].active && slots[p.value.0].gen == p.value.1
  }

  function Disarmed(slots: seq<Slot>, i: nat): seq<Slot>
    requires i < |slots|
  {
    slots[i := slots[i].(active := false)]
  }

  lemma {:induction false} FirstFree(slots: seq<Slot>, i: nat)
    requires i <= |slots| && (forall k :: 0 <= k < i ==> slots[k].active) && (i < |slots| ==> !slots[i].active)
    ensures FreeSlot(slots) == i
  {
    if i > 0 {
      FirstFree(slots[1..], i - 1);
    }
  }
}
