/** The timer service under every interleaving of API calls, the hardware
    timer and its callback, which may be dispatched and still wait for the mutex.
    Each critical section is one step; clock reads may be older than the step. */
module TimerMachine {
  import opened Words
  import opened Wrappers
  import opened DeadlineTimer
  import opened TimerObject
  import Runs

  /** One arm call; its position in the list is its serial number. */
  datatype ArmRec = ArmRec(slot: nat, gen: U16, first: nat, period: nat, ev: Event)

  /** One collected deadline: of which arm, which due time, and the callback's clock. */
  datatype Fire = Fire(serial: nat, due: nat, at: nat, ev: Event)

  datatype Callback = Resting | Dispatched(since: nat) | Posting

  /** `serials` says which arm call each slot holds; `arms` and `fires` are
      histories; `posted` counts the fires whose event went to the bus. */
  datatype Sys = Sys(
    slots: seq<Slot>, serials: seq<nat>, alarm: Alarm, cb: Callback, clock: nat,
    arms: seq<ArmRec>, fires: seq<Fire>, posted: nat)

  datatype Act =
    | Wait(n: nat)
    | ArmOnce(now: nat, delay: nat, ev: Event, startOk: bool)
    | ArmPeriodic(now: nat, period: nat, ev: Event, startOk: bool)
    | Cancel(tok: U32, now: nat, startOk: bool)
    | Expire
    | Collect(now: nat, startOk: bool)
    | Post

  function Arm(s: Sys, now: nat, delay: nat, period: nat, ev: Event, startOk: bool): Sys {
    var i := FreeSlot(s.slots);
    if i >= |s.slots| || |s.serials| != |s.slots| then s
    else
      var slots := Armed(s.slots, i, now + delay, period, ev);
      s.(slots := slots, serials := s.serials[i := |s.arms|],
         arms := s.arms + [ArmRec(i, slots[i].gen, now + delay, period, ev)],
         alarm := Rearm(slots, s.alarm, now, s.clock, startOk))
  }

  function Disarm(s: Sys, i: nat, now: nat, startOk: bool): Sys
    requires i < |s.slots|
  {
    var slots := Disarmed(s.slots, i);
    s.(slots := slots, alarm := Rearm(slots, s.alarm, now, s.clock, startOk))
  }

  function FireLog(slots: seq<Slot>, serials: seq<nat>, now: nat): seq<Fire>
    requires |serials| == |slots|
  {
    if slots == [] then []
    else
      var n := |slots| - 1;
      FireLog(slots[..n], serials[..n], now)
      + if IsDue(slots[n], now) then [Fire(serials[n], slots[n].due, now, slots[n].ev)] else []
  }

  function DoCollect(s: Sys, now: nat, startOk: bool): Sys
    requires |s.serials| == |s.slots|
  {
    var slots := AllAfter(s.slots, now);
    s.(slots := slots, fires := s.fires + FireLog(s.slots, s.serials, now), cb := Posting,
       alarm := Rearm(slots, Alarm(false, 0, s.alarm.port), now, s.clock, startOk))
  }

  ghost function Step(s: Sys, a: Act): Option<Sys>
    requires |s.serials| == |s.slots|
  {
    match a
    case Wait(n) => Some(s.(clock := s.clock + n))
    case ArmOnce(now, delay, ev, startOk) =>
      if now > s.clock then None else Some(Arm(s, now, if delay == 0 then 1 else delay, 0, ev, startOk))
    case ArmPeriodic(now, period, ev, startOk) =>
      if now > s.clock then None
      else if period == 0 then Some(s)
      else Some(Arm(s, now, period, period, ev, startOk))
    case Cancel(tok, now, startOk) =>
      if now > s.clock then None
      else if !Accepts(s.slots, tok) then Some(s)
      else Some(Disarm(s, TokenParse(tok, |s.slots|).value.0, now, startOk))
    case Expire =>
      if s.cb.Resting? && s.alarm.port.Running? && s.alarm.port.at <= s.clock then
        Some(s.(alarm := s.alarm.(port := Off), cb := Dispatched(s.clock)))
      else None
    case Collect(now, startOk) =>
      if s.cb.Dispatched? && s.cb.since <= now <= s.clock then Some(DoCollect(s, now, startOk)) else None
    case Post =>
      if !s.cb.Posting? then None
      else if s.posted < |s.fires| then Some(s.(posted := s.posted + 1))
      else Some(s.(cb := Resting))
  }

  // ----- wake-ups -----

  /** Somebody will look at the slots again. */
  ghost predicate Pending(s: Sys) {
    s.alarm.port.Running? || s.cb.Dispatched?
  }

  /** No lost wake-up: armed exactly while a slot is active, then for the earliest
      deadline, and with the hardware timer running or its callback on the way. */
  ghost predicate Awake(s: Sys) {
    && (s.alarm.armed <==> AnyActive(s.slots))
    && (s.alarm.armed ==> Earliest(s.slots) == Some(s.alarm.due) && Pending(s))
  }

  /** Rearming after a change of the slots restores the wake-up. */
  lemma RearmWakes(s: Sys, slots: seq<Slot>, now: nat)
    requires s.alarm.armed ==> Pending(s)
    ensures Awake(s.(slots := slots, alarm := Rearm(slots, s.alarm, now, s.clock, true)))
  {
    EarliestMeans(slots);
  }

  /** If the hardware timer fails to start, the wake-up survives exactly when no
      slot is active, the alarm already stood at the earliest deadline, or the
      callback was already on its way. */
  lemma FailedStart(s: Sys, slots: seq<Slot>, now: nat)
    requires s.alarm.armed ==> Pending(s)
    ensures var u := s.(slots := slots, alarm := Rearm(slots, s.alarm, now, s.clock, false));
      (AnyActive(u.slots) ==> Pending(u)) <==>
      (!AnyActive(slots) || (s.alarm.armed && Earliest(slots) == Some(s.alarm.due)) || s.cb.Dispatched?)
  {
    EarliestMeans(slots);
  }

  /** What failing starts leave of it: the service is armed only for the earliest
      deadline and with a wake-up on the way. */
  ghost predicate Ready(s: Sys) {
    s.alarm.armed ==> Earliest(s.slots) == Some(s.alarm.due) && Pending(s)
  }

  lemma RearmReady(s: Sys, slots: seq<Slot>, now: nat, startOk: bool)
    requires s.alarm.armed ==> Pending(s)
    ensures Ready(s.(slots := slots, alarm := Rearm(slots, s.alarm, now, s.clock, startOk)))
  {
  }

  // ----- histories -----

  ghost predicate SlotOk(s: Sys, i: nat)
    requires i < |s.slots| == |s.serials|
  {
    s.slots[i].active ==>
      && s.serials[i] < |s.arms|
      && var r := s.arms[s.serials[i]];
         r.slot == i && r.gen == s.slots[i].gen && r.period == s.slots[i].period && r.ev == s.slots[i].ev
         && OnGrid(r.first, r.period, s.slots[i].due)
  }

  /** A fire names an arm call, a deadline on its grid, and was not early. */
  ghost predicate FireOk(s: Sys, f: Fire) {
    && f.serial < |s.arms| && f.due <= f.at <= s.clock && f.ev == s.arms[f.serial].ev
    && OnGrid(s.arms[f.serial].first, s.arms[f.serial].period, f.due)
  }

  /** Whatever was collected for the arm a slot holds was collected before its deadline. */
  ghost predicate PastOk(s: Sys, i: nat, f: Fire)
    requires i < |s.slots| == |s.serials|
  {
    s.slots[i].active && f.serial == s.serials[i] ==> f.at < s.slots[i].due
  }

  ghost predicate Ordered(fires: seq<Fire>) {
    forall j, k :: 0 <= j < k < |fires| && fires[j].serial == fires[k].serial ==> fires[j].at < fires[k].due
  }

  ghost predicate History(s: Sys) {
    && |s.serials| == |s.slots|
    && (forall i: nat :: i < |s.slots| ==> SlotOk(s, i))
    && (forall j :: 0 <= j < |s.fires| ==> FireOk(s, s.fires[j]))
    && (forall i: nat, j: nat :: i < |s.slots| && j < |s.fires| ==> PastOk(s, i, s.fires[j]))
    && Ordered(s.fires)
    && s.posted <= |s.fires| && (!s.cb.Posting? ==> s.posted == |s.fires|)
  }

  ghost predicate Inv(s: Sys) {
    History(s) && Awake(s)
  }

  lemma {:induction false} FireLogMeans(slots: seq<Slot>, serials: seq<nat>, now: nat)
    requires |serials| == |slots|
    ensures var log, f := FireLog(slots, serials, now), Fires(slots, now);
      && |log| == |f|
      && forall k :: 0 <= k < |f| ==>
           f[k] < |slots| && log[k] == Fire(serials[f[k]], slots[f[k]].due, now, slots[f[k]].ev)
  {
    if slots != [] {
      FireLogMeans(slots[..|slots| - 1], serials[..|slots| - 1], now);
    }
  }

  lemma ArmHistory(s: Sys, now: nat, delay: nat, period: nat, ev: Event, startOk: bool)
    requires History(s)
    ensures History(Arm(s, now, delay, period, ev, startOk))
  {
    var u := Arm(s, now, delay, period, ev, startOk);
    var i := FreeSlot(s.slots);
    if i < |s.slots| {
      forall k: nat | k < |u.slots|
        ensures SlotOk(u, k)
      {
        assert SlotOk(s, k);
      }
      forall j | 0 <= j < |u.fires|
        ensures FireOk(u, u.fires[j])
      {
        assert FireOk(s, s.fires[j]);
      }
      forall k: nat, j: nat | k < |u.slots| && j < |u.fires|
        ensures PastOk(u, k, u.fires[j])
      {
        assert FireOk(s, s.fires[j]) && PastOk(s, k, s.fires[j]);
      }
    }
  }

  lemma DisarmHistory(s: Sys, i: nat, now: nat, startOk: bool)
    requires History(s) && i < |s.slots|
    ensures History(Disarm(s, i, now, startOk))
  {
    var u := Disarm(s, i, now, startOk);
    forall k: nat | k < |u.slots|
      ensures SlotOk(u, k)
    {
      assert SlotOk(s, k);
    }
    forall j | 0 <= j < |u.fires|
      ensures FireOk(u, u.fires[j])
    {
      assert FireOk(s, s.fires[j]);
    }
    forall k: nat, j: nat | k < |u.slots| && j < |u.fires|
      ensures PastOk(u, k, u.fires[j])
    {
      assert PastOk(s, k, s.fires[j]);
    }
  }

  /** A due slot that stays active moves to the first grid point after now. */
  lemma AfterMeans(s: Slot, first: nat, now: nat)
    requires s.active ==> OnGrid(first, s.period, s.due)
    ensures After(s, now).active ==> OnGrid(first, s.period, After(s, now).due) && After(s, now).due > now
    ensures After(s, now).active ==> s.active && s.due <= After(s, now).due
    ensures IsDue(s, now) && After(s, now).active ==> s.due < After(s, now).due
    ensures After(s, now) == s.(active := After(s, now).active, due := After(s, now).due)
  {
    if IsDue(s, now) && s.period > 0 {
      NextDueOnGrid(first, s.period, s.due, now);
    }
  }

  lemma CollectHistory(s: Sys, now: nat, startOk: bool)
    requires History(s) && s.cb.Dispatched? && now <= s.clock
    ensures History(DoCollect(s, now, startOk))
  {
    var u := DoCollect(s, now, startOk);
    var log, f, n := FireLog(s.slots, s.serials, now), Fires(s.slots, now), |s.fires|;
    FireLogMeans(s.slots, s.serials, now);
    FiresMeans(s.slots, now);
    forall i: nat | i < |u.slots|
      ensures SlotOk(u, i)
    {
      assert SlotOk(s, i);
      if s.slots[i].active {
        AfterMeans(s.slots[i], s.arms[s.serials[i]].first, now);
      }
    }
    forall j | 0 <= j < |u.fires|
      ensures FireOk(u, u.fires[j])
    {
      if j < n {
        assert FireOk(s, s.fires[j]);
      } else {
        assert u.fires[j] == log[j - n] && SlotOk(s, f[j - n]);
      }
    }
    forall i: nat, j: nat | i < |u.slots| && j < |u.fires|
      ensures PastOk(u, i, u.fires[j])
    {
      CollectPast(s, now, startOk, i, j);
    }
    forall j, k | 0 <= j < k < |u.fires|
      ensures u.fires[j].serial != u.fires[k].serial || u.fires[j].at < u.fires[k].due
    {
      CollectOrdered(s, now, startOk, j, k);
    }
  }

  lemma CollectOrdered(s: Sys, now: nat, startOk: bool, j: nat, k: nat)
    requires History(s) && now <= s.clock && j < k < |DoCollect(s, now, startOk).fires|
    ensures var fires := DoCollect(s, now, startOk).fires;
      fires[j].serial != fires[k].serial || fires[j].at < fires[k].due
  {
    var u := DoCollect(s, now, startOk);
    var f, n := Fires(s.slots, now), |s.fires|;
    FireLogMeans(s.slots, s.serials, now);
    FiresMeans(s.slots, now);
    if k >= n {
      var i := f[k - n];
      assert SlotOk(s, i);
      if j < n {
        assert PastOk(s, i, s.fires[j]);
      } else {
        assert SlotOk(s, f[j - n]) && f[j - n] < i;
      }
    }
  }

  lemma CollectPast(s: Sys, now: nat, startOk: bool, i: nat, j: nat)
    requires History(s) && now <= s.clock && i < |s.slots| && j < |DoCollect(s, now, startOk).fires|
    ensures PastOk(DoCollect(s, now, startOk), i, DoCollect(s, now, startOk).fires[j])
  {
    var u := DoCollect(s, now, startOk);
    var f, n := Fires(s.slots, now), |s.fires|;
    FireLogMeans(s.slots, s.serials, now);
    FiresMeans(s.slots, now);
    assert SlotOk(s, i);
    if u.slots[i].active && u.fires[j].serial == u.serials[i] {
      AfterMeans(s.slots[i], s.arms[s.serials[i]].first, now);
      if j < n {
        assert PastOk(s, i, s.fires[j]);
      } else {
        assert SlotOk(s, f[j - n]);
        assert f[j - n] == i;
      }
    }
  }

  /** Starts of the hardware timer that the assumption covers. */
  predicate StartsOk(a: Act) {
    match a
    case ArmOnce(_, _, _, startOk) => startOk
    case ArmPeriodic(_, _, _, startOk) => startOk
    case Cancel(_, _, startOk) => startOk
    case Collect(_, startOk) => startOk
    case _ => true
  }

  lemma QuietHistory(s: Sys, u: Sys)
    requires History(s)
    requires u == s.(clock := u.clock, alarm := u.alarm, cb := u.cb, posted := u.posted) && u.clock >= s.clock
    requires u.posted <= |s.fires| && (!u.cb.Posting? ==> u.posted == |s.fires|)
    ensures History(u)
  {
    forall i: nat | i < |u.slots|
      ensures SlotOk(u, i)
    {
      assert SlotOk(s, i);
    }
    forall j | 0 <= j < |u.fires|
      ensures FireOk(u, u.fires[j])
    {
      assert FireOk(s, s.fires[j]);
    }
    forall i: nat, j: nat | i < |u.slots| && j < |u.fires|
      ensures PastOk(u, i, u.fires[j])
    {
      assert PastOk(s, i, s.fires[j]);
    }
  }

  /** The histories hold whether or not the hardware timer starts. */
  lemma StepHistory(s: Sys, a: Act)
    requires History(s) && Step(s, a).Some?
    ensures History(Step(s, a).value)
  {
    match a {
      case ArmOnce(now, delay, ev, startOk) =>
        ArmHistory(s, now, if delay == 0 then 1 else delay, 0, ev, startOk);
      case ArmPeriodic(now, period, ev, startOk) =>
        if period > 0 {
          ArmHistory(s, now, period, period, ev, startOk);
        }
      case Cancel(tok, now, startOk) =>
        if Accepts(s.slots, tok) {
          DisarmHistory(s, TokenParse(tok, |s.slots|).value.0, now, startOk);
        }
      case Collect(now, startOk) => CollectHistory(s, now, startOk);
      case _ => QuietHistory(s, Step(s, a).value);
    }
  }

  lemma StepAwake(s: Sys, a: Act)
    requires History(s) && Awake(s) && StartsOk(a) && Step(s, a).Some?
    ensures Awake(Step(s, a).value)
  {
    match a {
      case ArmOnce(now, delay, ev, startOk) => RearmWakes(s, Step(s, a).value.slots, now);
      case ArmPeriodic(now, period, ev, startOk) => RearmWakes(s, Step(s, a).value.slots, now);
      case Cancel(tok, now, startOk) => RearmWakes(s, Step(s, a).value.slots, now);
      case Collect(now, startOk) =>
        RearmWakes(s.(alarm := Alarm(false, 0, s.alarm.port), cb := Posting), AllAfter(s.slots, now), now);
      case _ =>
    }
  }

  /** The step looks for the earliest deadline and rearms: an arm call that found
      a slot, an accepted cancel, the callback. */
  ghost predicate Rearms(s: Sys, a: Act) {
    match a
    case ArmOnce(_, _, _, _) => FreeSlot(s.slots) < |s.slots|
    case ArmPeriodic(_, period, _, _) => period > 0 && FreeSlot(s.slots) < |s.slots|
    case Cancel(tok, _, _) => Accepts(s.slots, tok)
    case Collect(_, _) => true
    case _ => false
  }

  /** Every step, its start failing or not, keeps what the service relies on. */
  lemma StepReady(s: Sys, a: Act)
    requires |s.serials| == |s.slots| && Ready(s) && Step(s, a).Some?
    ensures Ready(Step(s, a).value)
  {
    match a {
      case ArmOnce(now, delay, ev, startOk) => RearmReady(s, Step(s, a).value.slots, now, startOk);
      case ArmPeriodic(now, period, ev, startOk) => RearmReady(s, Step(s, a).value.slots, now, startOk);
      case Cancel(tok, now, startOk) => RearmReady(s, Step(s, a).value.slots, now, startOk);
      case Collect(now, startOk) =>
        RearmReady(s.(alarm := Alarm(false, 0, s.alarm.port), cb := Posting), AllAfter(s.slots, now), now, startOk);
      case _ =>
    }
  }

  /** After a rearming step whose start succeeds the wake-up is as it should be;
      after one whose start fails there is one, if needed, iff no slot is active,
      the callback is on its way, or the alarm already stood right. */
  ghost predicate Woken(s: Sys, a: Act, u: Sys) {
    && (StartsOk(a) ==> Awake(u))
    && (!StartsOk(a) ==>
          ((AnyActive(u.slots) ==> Pending(u)) <==>
             (!AnyActive(u.slots) || u.cb.Dispatched?
              || (!a.Collect? && s.alarm.armed && Earliest(u.slots) == Some(s.alarm.due)))))
  }

  lemma RearmStep(s: Sys, a: Act)
    requires |s.serials| == |s.slots| && Ready(s) && Step(s, a).Some? && Rearms(s, a)
    ensures Woken(s, a, Step(s, a).value)
  {
    var slots := Step(s, a).value.slots;
    match a {
      case ArmOnce(now, _, _, _) => RearmWakes(s, slots, now); FailedStart(s, slots, now);
      case ArmPeriodic(now, _, _, _) => RearmWakes(s, slots, now); FailedStart(s, slots, now);
      case Cancel(_, now, _) => RearmWakes(s, slots, now); FailedStart(s, slots, now);
      case Collect(now, _) =>
        var late := s.(alarm := Alarm(false, 0, s.alarm.port), cb := Posting);
        RearmWakes(late, slots, now);
        FailedStart(late, slots, now);
    }
  }

  // ----- runs -----

  ghost predicate Takes(s: Sys, a: Act, u: Sys, starts: bool) {
    |s.serials| == |s.slots| && (starts ==> StartsOk(a)) && Step(s, a) == Some(u)
  }

  ghost predicate Follows(s: Sys, u: Sys, starts: bool) {
    exists a :: Takes(s, a, u, starts)
  }

  ghost function Next(starts: bool): (Sys, Sys) -> bool {
    (s: Sys, u: Sys) => Follows(s, u, starts)
  }

  /** `starts` says whether every start of the hardware timer succeeds. */
  ghost predicate IsRun(run: seq<Sys>, starts: bool) {
    Runs.IsRun(Next(starts), run)
  }

  /** After `services_timer_start`. */
  ghost predicate Start(s: Sys) {
    && |s.serials| == |s.slots| && (forall i :: 0 <= i < |s.slots| ==> !s.slots[i].active && s.slots[i].gen == 0)
    && s.alarm == Alarm(false, 0, Off) && s.cb == Resting
    && s.arms == [] && s.fires == [] && s.posted == 0
  }

  lemma StartInv(s: Sys)
    requires Start(s)
    ensures Inv(s)
  {
  }

  ghost predicate Keeps(s: Sys, starts: bool, awake: bool) {
    History(s) && (starts && awake ==> Awake(s))
  }

  lemma FollowKeeps(s: Sys, u: Sys, starts: bool, awake: bool)
    requires Keeps(s, starts, awake) && Follows(s, u, starts)
    ensures Keeps(u, starts, awake)
  {
    var a :| Takes(s, a, u, starts);
    StepHistory(s, a);
    if starts && awake {
      StepAwake(s, a);
    }
  }

  lemma RunHistory(run: seq<Sys>, starts: bool)
    requires IsRun(run, starts) && History(run[0])
    ensures History(run[|run| - 1])
    ensures starts && Awake(run[0]) ==> Awake(run[|run| - 1])
  {
    var awake := Awake(run[0]);
    forall s, u | Next(starts)(s, u) && ((x: Sys) => Keeps(x, starts, awake))(s)
      ensures Keeps(u, starts, awake)
    {
      FollowKeeps(s, u, starts, awake);
    }
    Runs.Invariant(Next(starts), (x: Sys) => Keeps(x, starts, awake), run, |run| - 1);
  }

  /** In every reachable state between critical sections: a deadline is active
      iff the service is armed; then it is armed for the earliest one, and the
      hardware timer runs or its callback is on the way. */
  lemma NoLostWakeup(run: seq<Sys>)
    requires IsRun(run, true) && Start(run[0])
    ensures var s := run[|run| - 1];
      && (AnyActive(s.slots) <==> s.alarm.armed)
      && (s.alarm.armed ==> s.alarm.port.Running? || s.cb.Dispatched?)
      && (s.alarm.armed ==>
            && (exists i :: 0 <= i < |s.slots| && s.slots[i].active && s.slots[i].due == s.alarm.due)
            && (forall i :: 0 <= i < |s.slots| && s.slots[i].active ==> s.alarm.due <= s.slots[i].due))
  {
    StartInv(run[0]);
    RunHistory(run, true);
    EarliestMeans(run[|run| - 1].slots);
  }

  ghost function AlwaysReady(): Sys -> bool {
    (s: Sys) => Ready(s)
  }

  lemma FollowReady(starts: bool)
    ensures Runs.Keeps(Next(starts), AlwaysReady())
  {
    forall s, u | Next(starts)(s, u) && AlwaysReady()(s)
      ensures AlwaysReady()(u)
    {
      var a :| Takes(s, a, u, starts);
      StepReady(s, a);
    }
  }

  /** In every reachable state, however many starts failed: the wake-up is as it
      should be if and only if the service is armed in case a slot is active. The
      next rearming step repairs it or fails as `Woken` says. */
  lemma WakeupsUnderFailure(run: seq<Sys>, starts: bool, a: Act)
    requires IsRun(run, starts) && Start(run[0])
    ensures var s := run[|run| - 1];
      && |s.serials| == |s.slots|
      && (Awake(s) <==> (AnyActive(s.slots) ==> s.alarm.armed))
      && (Step(s, a).Some? && Rearms(s, a) ==> Woken(s, a, Step(s, a).value))
  {
    StartInv(run[0]);
    RunHistory(run, starts);
    FollowReady(starts);
    Runs.Invariant(Next(starts), AlwaysReady(), run, |run| - 1);
    var s := run[|run| - 1];
    EarliestMeans(s.slots);
    if Step(s, a).Some? && Rearms(s, a) {
      RearmStep(s, a);
    }
  }

  /** Over any run, even with failing starts: nothing is collected early, and what
      is collected is a deadline on the grid of its arm call, with its event. */
  lemma CollectedOnTime(run: seq<Sys>, starts: bool, j: nat)
    requires IsRun(run, starts) && Start(run[0]) && j < |run[|run| - 1].fires|
    ensures var s := run[|run| - 1]; var f := s.fires[j];
      && f.serial < |s.arms| && f.ev == s.arms[f.serial].ev
      && s.arms[f.serial].first <= f.due <= f.at <= s.clock
      && OnGrid(s.arms[f.serial].first, s.arms[f.serial].period, f.due)
  {
    StartInv(run[0]);
    RunHistory(run, starts);
    assert FireOk(run[|run| - 1], run[|run| - 1].fires[j]);
  }

  /** A one-shot is collected at most once, and successive collections of one
      periodic arm fall in strictly increasing windows of its grid: the later
      deadline comes after the time of the earlier collection. */
  lemma CollectedOnce(run: seq<Sys>, starts: bool, j: nat, k: nat)
    requires IsRun(run, starts) && Start(run[0]) && j < k < |run[|run| - 1].fires|
    requires run[|run| - 1].fires[j].serial == run[|run| - 1].fires[k].serial
    ensures var s := run[|run| - 1]; var f, g := s.fires[j], s.fires[k];
      && f.serial < |s.arms| && s.arms[f.serial].period > 0
      && s.arms[f.serial].first <= f.due <= f.at < g.due <= g.at
      && Window(s.arms[f.serial].first, s.arms[f.serial].period, f.at)
       < Window(s.arms[f.serial].first, s.arms[f.serial].period, g.at)
  {
    StartInv(run[0]);
    RunHistory(run, starts);
    var s := run[|run| - 1];
    var f, g := s.fires[j], s.fires[k];
    assert FireOk(s, f) && FireOk(s, g);
    NextWindow(s.arms[f.serial].first, s.arms[f.serial].period, f.at, g.due, g.at);
  }

  /** The number of the grid window [first + n * period, first + (n + 1) * period) that holds x. */
  function Window(first: nat, period: nat, x: nat): nat
    requires period > 0 && first <= x
  {
    (x - first) / period
  }

  /** A grid point between two times separates their windows. */
  lemma NextWindow(first: nat, period: nat, a: nat, due: nat, b: nat)
    requires period > 0 && first <= a < due <= b && OnGrid(first, period, due)
    ensures Window(first, period, a) < Window(first, period, b)
  {
    var n := (due - first) / period;
    assert due - first == n * period;
    Below(a - first, n, period);
    NotBelow(b - first, n, period);
  }

  lemma Below(x: nat, n: nat, period: nat)
    requires period > 0 && x < n * period
    ensures x / period < n
  {
    if x / period >= n {
      MulLe(n, x / period, period);
      assert false;
    }
  }

  lemma NotBelow(x: nat, n: nat, period: nat)
    requires period > 0 && n * period <= x
    ensures n <= x / period
  {
    if x / period < n {
      MulLe(x / period + 1, n, period);
      assert false;
    }
  }

  /** What the callback does to a slot: nothing before its deadline; a one-shot that
      is due ends; a periodic one moves on by whole periods to the first deadline
      after the callback's clock, and changes in nothing else. */
  ghost predicate MovedOn(s: Slot, to: Slot, now: nat) {
    if !s.active || s.due > now then to == s
    else if s.period == 0 then to == s.(active := false)
    else to == s.(due := to.due) && to.due > now >= to.due - s.period && (to.due - s.due) % s.period == 0
  }

  lemma MovesOn(s: Slot, now: nat)
    ensures MovedOn(s, After(s, now), now)
  {
    if IsDue(s, now) && s.period > 0 {
      NextDueOnGrid(s.due, s.period, s.due, now);
    }
  }

  /** The callback collects each due slot exactly once, in slot order, moves those
      slots on and no other, and leaves only deadlines after its clock. */
  lemma CallbackCollects(s: Sys, now: nat, startOk: bool)
    requires History(s) && s.cb.Dispatched? && s.cb.since <= now <= s.clock
    ensures var u := Step(s, Collect(now, startOk)).value; var f := Fires(s.slots, now);
      && |u.slots| == |s.slots| && (forall i :: 0 <= i < |s.slots| ==> MovedOn(s.slots[i], u.slots[i], now))
      && (forall i :: 0 <= i < |u.slots| && u.slots[i].active ==> u.slots[i].due > now)
      && (forall k: nat :: Alive(s, k) && !(s.slots[s.arms[k].slot].due <= now && s.arms[k].period == 0) ==> Alive(u, k))
      && |u.fires| == |s.fires| + |f| && u.fires[..|s.fires|] == s.fires
      && (forall k :: 0 <= k < |f| ==> f[k] < |s.slots|)
      && (forall k :: 0 <= k < |f| ==>
            u.fires[|s.fires| + k] == Fire(s.serials[f[k]], s.slots[f[k]].due, now, s.slots[f[k]].ev))
      && (forall i: nat :: i in f <==> i < |s.slots| && IsDue(s.slots[i], now))
      && (forall a, b :: 0 <= a < b < |f| ==> f[a] < f[b])
  {
    FireLogMeans(s.slots, s.serials, now);
    FiresMeans(s.slots, now);
    var u := Step(s, Collect(now, startOk)).value;
    forall i | 0 <= i < |u.slots|
      ensures MovedOn(s.slots[i], u.slots[i], now)
    {
      MovesOn(s.slots[i], now);
    }
    forall k: nat | Alive(s, k) && !(s.slots[s.arms[k].slot].due <= now && s.arms[k].period == 0)
      ensures Alive(u, k)
    {
      assert SlotOk(s, s.arms[k].slot);
    }
  }

  /** Periodic deadlines do not drift: in every reachable state the deadline of an
      active slot is on the grid that starts at its first one. */
  lemma NoDrift(run: seq<Sys>, starts: bool, i: nat)
    requires IsRun(run, starts) && Start(run[0])
    requires i < |run[|run| - 1].slots| && run[|run| - 1].slots[i].active
    ensures var s := run[|run| - 1];
      && |s.serials| == |s.slots| && s.serials[i] < |s.arms|
      && OnGrid(s.arms[s.serials[i]].first, s.slots[i].period, s.slots[i].due)
  {
    StartInv(run[0]);
    RunHistory(run, starts);
    assert SlotOk(run[|run| - 1], i);
  }

  /** From s to u the first free slot was armed, if there was one. It is then due
      as asked, with its event; no other slot changes, every other arm that was
      alive still is, and the new token is accepted. */
  ghost predicate TookSlot(s: Sys, u: Sys, due: nat, period: nat, ev: Event) {
    if forall i :: 0 <= i < |s.slots| ==> s.slots[i].active then u == s
    else
      var i := FreeSlot(s.slots);
      && i < |s.slots| == |u.slots| && !s.slots[i].active && (forall k :: 0 <= k < i ==> s.slots[k].active)
      && u.slots[i] == Slot(true, u.slots[i].gen, due, period, ev)
      && (forall k :: 0 <= k < |s.slots| && k != i ==> u.slots[k] == s.slots[k])
      && (forall k: nat :: Alive(s, k) ==> Alive(u, k))
      && i < 0xFFFF && Accepts(u.slots, TokenMake(i, u.slots[i].gen)) && Alive(u, |s.arms|)
  }

  lemma ArmMeans(s: Sys, now: nat, delay: nat, period: nat, ev: Event, startOk: bool)
    requires History(s) && |s.slots| <= 0xFFFF
    ensures TookSlot(s, Arm(s, now, delay, period, ev, startOk), now + delay, period, ev)
  {
    var i := FreeSlot(s.slots);
    if i < |s.slots| {
      TokenRoundTrip(i, NextGen(s.slots[i].gen), |s.slots|, 0);
    }
  }

  /** A one-shot is due after its delay, at least a microsecond from the clock of
      the call. */
  lemma ArmOnceMeans(s: Sys, now: nat, delay: nat, ev: Event, startOk: bool)
    requires History(s) && |s.slots| <= 0xFFFF && now <= s.clock
    ensures Step(s, ArmOnce(now, delay, ev, startOk)).Some?
    ensures TookSlot(s, Step(s, ArmOnce(now, delay, ev, startOk)).value, if delay > 0 then now + delay else now + 1, 0, ev)
  {
    ArmMeans(s, now, if delay == 0 then 1 else delay, 0, ev, startOk);
  }

  /** A periodic arm is due after one period and then on that period; a period of 0
      is refused. */
  lemma ArmPeriodicMeans(s: Sys, now: nat, period: nat, ev: Event, startOk: bool)
    requires History(s) && |s.slots| <= 0xFFFF && now <= s.clock
    ensures Step(s, ArmPeriodic(now, period, ev, startOk)).Some?
    ensures var u := Step(s, ArmPeriodic(now, period, ev, startOk)).value;
      if period == 0 then u == s else TookSlot(s, u, now + period, period, ev)
  {
    ArmMeans(s, now, period, period, ev, startOk);
  }

  // ----- cancelled and expired arms -----

  ghost predicate Alive(s: Sys, k: nat) {
    && k < |s.arms| && s.arms[k].slot < |s.slots| == |s.serials|
    && s.slots[s.arms[k].slot].active && s.serials[s.arms[k].slot] == k
  }

  /** From s to u only fires of other arms were added. */
  ghost predicate Silent(s: Sys, u: Sys, k: nat) {
    && k < |s.arms| <= |u.arms| && u.arms[k] == s.arms[k] && !Alive(u, k)
    && |s.fires| <= |u.fires| && u.fires[..|s.fires|] == s.fires && s.posted <= u.posted
    && forall j :: |s.fires| <= j < |u.fires| ==> u.fires[j].serial != k
  }

  lemma DeadCollect(s: Sys, now: nat, startOk: bool, k: nat)
    requires History(s) && k < |s.arms| && !Alive(s, k)
    ensures Silent(s, DoCollect(s, now, startOk), k)
  {
    var u := DoCollect(s, now, startOk);
    FireLogMeans(s.slots, s.serials, now);
    FiresMeans(s.slots, now);
    forall j | |s.fires| <= j < |u.fires|
      ensures u.fires[j].serial != k
    {
      assert SlotOk(s, Fires(s.slots, now)[j - |s.fires|]);
    }
  }

  lemma DeadArm(s: Sys, now: nat, delay: nat, period: nat, ev: Event, startOk: bool, k: nat)
    requires History(s) && k < |s.arms| && !Alive(s, k)
    ensures Silent(s, Arm(s, now, delay, period, ev, startOk), k)
  {
  }

  lemma DeadStays(s: Sys, a: Act, k: nat)
    requires History(s) && k < |s.arms| && !Alive(s, k) && Step(s, a).Some?
    ensures Silent(s, Step(s, a).value, k)
  {
    match a {
      case Collect(now, startOk) => DeadCollect(s, now, startOk, k);
      case ArmOnce(now, delay, ev, startOk) =>
        DeadArm(s, now, if delay == 0 then 1 else delay, 0, ev, startOk, k);
      case ArmPeriodic(now, period, ev, startOk) => DeadArm(s, now, period, period, ev, startOk, k);
      case _ =>
    }
  }

  lemma FollowDead(s: Sys, u: Sys, starts: bool, k: nat)
    requires History(s) && k < |s.arms| && !Alive(s, k) && Follows(s, u, starts)
    ensures Silent(s, u, k)
  {
    var a :| Takes(s, a, u, starts);
    DeadStays(s, a, k);
  }

  lemma SilentOn(s: Sys, u: Sys, v: Sys, k: nat)
    requires Silent(s, u, k) && Silent(u, v, k)
    ensures Silent(s, v, k)
  {
    assert v.fires[..|s.fires|] == u.fires[..|s.fires|];
    forall j | |s.fires| <= j < |v.fires|
      ensures v.fires[j].serial != k
    {
      assert j < |u.fires| ==> v.fires[..|u.fires|][j] == v.fires[j];
    }
  }

  lemma StaysDead(s: Sys, u: Sys, v: Sys, starts: bool, k: nat)
    requires History(u) && Silent(s, u, k) && Follows(u, v, starts)
    ensures History(v) && Silent(s, v, k)
  {
    FollowKeeps(u, v, starts, false);
    FollowDead(u, v, starts, k);
    SilentOn(s, u, v, k);
  }

  lemma RunDead(run: seq<Sys>, starts: bool, k: nat)
    requires IsRun(run, starts) && History(run[0]) && k < |run[0].arms| && !Alive(run[0], k)
    ensures Silent(run[0], run[|run| - 1], k)
  {
    var s := run[0];
    var quiet := (x: Sys) => History(x) && Silent(s, x, k);
    forall u, v | Next(starts)(u, v) && quiet(u)
      ensures quiet(v)
    {
      StaysDead(s, u, v, starts, k);
    }
    Runs.Invariant(Next(starts), quiet, run, |run| - 1);
  }

  /** A cancel whose token stands for the arm in a slot ends this arm and nothing
      else: its slot turns inactive, every other slot keeps its value, and every
      other arm that was alive still is. With any other token nothing changes. */
  lemma CancelMeans(s: Sys, tok: U32, now: nat, startOk: bool)
    requires History(s) && |s.slots| <= 0xFFFF && now <= s.clock
    ensures Step(s, Cancel(tok, now, startOk)).Some?
    ensures var u := Step(s, Cancel(tok, now, startOk)).value; var i := tok % 0x1_0000 - 1;
      if 0 <= i < |s.slots| && s.slots[i].active && s.slots[i].gen == tok / 0x1_0000 then
        && |u.slots| == |s.slots| && u.slots[i] == s.slots[i].(active := false)
        && (forall k :: 0 <= k < |s.slots| && k != i ==> u.slots[k] == s.slots[k])
        && (forall k: nat :: Alive(u, k) <==> Alive(s, k) && k != s.serials[i])
        && u == s.(slots := u.slots, alarm := u.alarm)
      else u == s
  {
    var i := tok % 0x1_0000 - 1;
    if 0 <= i < |s.slots| {
      TokenRoundTrip(i, tok / 0x1_0000, |s.slots|, tok);
      forall k: nat | Alive(s, k) && k != s.serials[i]
        ensures s.arms[k].slot != i
      {
      }
      assert SlotOk(s, i);
    }
  }

  lemma CancelKills(s: Sys, tok: U32, now: nat, startOk: bool)
    requires History(s) && now <= s.clock && Accepts(s.slots, tok)
    ensures var u := Step(s, Cancel(tok, now, startOk)).value;
      !Alive(u, s.serials[TokenParse(tok, |s.slots|).value.0])
  {
    assert SlotOk(s, TokenParse(tok, |s.slots|).value.0);
  }

  /** After a successful cancel (or the expiry of a one-shot) the arm is never
      collected again; an event of it is posted afterwards if and only if it had
      been collected before and was still waiting to be posted. */
  lemma NothingAfterCancel(run: seq<Sys>, starts: bool, k: nat)
    requires IsRun(run, starts) && History(run[0]) && k < |run[0].arms| && !Alive(run[0], k)
    ensures var s, u := run[0], run[|run| - 1];
      && |s.fires| <= |u.fires| && u.posted <= |u.fires|
      && (forall j :: |s.fires| <= j < |u.fires| ==> u.fires[j].serial != k)
      && (forall p :: s.posted <= p < u.posted ==>
            (u.fires[p].serial == k <==> p < |s.fires| && s.fires[p].serial == k))
  {
    RunDead(run, starts, k);
    RunHistory(run, starts);
    var s, u := run[0], run[|run| - 1];
    forall p | s.posted <= p < u.posted
      ensures u.fires[p].serial == k <==> p < |s.fires| && s.fires[p].serial == k
    {
      assert p < |s.fires| ==> u.fires[..|s.fires|][p] == s.fires[p];
    }
  }

  // ----- how long a token protects -----

  ghost function ArmsOf(arms: seq<ArmRec>, i: nat): nat {
    if arms == [] then 0
    else ArmsOf(arms[..|arms| - 1], i) + if arms[|arms| - 1].slot == i then 1 else 0
  }

  /** The generation after n arms of a slot that started at 0. */
  ghost function GenOf(n: nat): U16 {
    if n == 0 then 0 else (n - 1) % 0xFFFF + 1
  }

  lemma GenOfNext(n: nat)
    ensures NextGen(GenOf(n)) == GenOf(n + 1)
  {
    if n > 0 {
      var q, r := (n - 1) / 0xFFFF, (n - 1) % 0xFFFF;
      if r == 0xFFFE {
        ModUnique(n, 0xFFFF, q + 1, 0);
      } else {
        ModUnique(n, 0xFFFF, q, r + 1);
      }
    }
  }

  ghost predicate ArmGenOk(s: Sys, k: nat)
    requires k < |s.arms| && |s.serials| == |s.slots|
  {
    var i := s.arms[k].slot;
    && i < |s.slots| && s.arms[k].gen == GenOf(ArmsOf(s.arms[..k + 1], i))
    && ArmsOf(s.arms[..k + 1], i) <= ArmsOf(s.arms, i) && ArmsOf(s.arms[..k + 1], i) > 0
    && (ArmsOf(s.arms[..k + 1], i) == ArmsOf(s.arms, i) ==> s.serials[i] == k)
  }

  ghost predicate Gens(s: Sys) {
    && |s.serials| == |s.slots| <= 0xFFFF
    && (forall i: nat :: i < |s.slots| ==> s.slots[i].gen == GenOf(ArmsOf(s.arms, i)))
    && (forall k: nat :: k < |s.arms| ==> ArmGenOk(s, k))
  }

  lemma ArmGens(s: Sys, now: nat, delay: nat, period: nat, ev: Event, startOk: bool)
    requires Gens(s)
    ensures Gens(Arm(s, now, delay, period, ev, startOk))
  {
    var u := Arm(s, now, delay, period, ev, startOk);
    var i := FreeSlot(s.slots);
    if i < |s.slots| {
      var n := |s.arms|;
      assert u.arms[..n] == s.arms && u.arms[..n + 1] == u.arms;
      GenOfNext(ArmsOf(s.arms, i));
      forall k: nat | k < |u.arms|
        ensures ArmGenOk(u, k)
      {
        if k < n {
          assert ArmGenOk(s, k) && u.arms[..k + 1] == s.arms[..k + 1];
        }
      }
    }
  }

  lemma StepGens(s: Sys, a: Act)
    requires Gens(s) && Step(s, a).Some?
    ensures Gens(Step(s, a).value)
  {
    match a {
      case ArmOnce(now, delay, ev, startOk) =>
        ArmGens(s, now, if delay == 0 then 1 else delay, 0, ev, startOk);
      case ArmPeriodic(now, period, ev, startOk) =>
        if period > 0 {
          ArmGens(s, now, period, period, ev, startOk);
        }
      case _ => QuietGens(s, Step(s, a).value);
    }
  }

  lemma QuietGens(s: Sys, u: Sys)
    requires Gens(s) && u.arms == s.arms && |u.slots| == |s.slots| && u.serials == s.serials
    requires forall i :: 0 <= i < |s.slots| ==> u.slots[i].gen == s.slots[i].gen
    ensures Gens(u)
  {
    forall k: nat | k < |u.arms|
      ensures ArmGenOk(u, k)
    {
      assert ArmGenOk(s, k);
    }
  }

  lemma FollowGens(s: Sys, u: Sys, starts: bool)
    requires Gens(s) && Follows(s, u, starts)
    ensures Gens(u)
  {
    var a :| Takes(s, a, u, starts);
    StepGens(s, a);
  }

  lemma RunGens(run: seq<Sys>, starts: bool)
    requires IsRun(run, starts) && Gens(run[0])
    ensures Gens(run[|run| - 1])
  {
    forall s, u | Next(starts)(s, u) && ((x: Sys) => Gens(x))(s)
      ensures Gens(u)
    {
      FollowGens(s, u, starts);
    }
    Runs.Invariant(Next(starts), (x: Sys) => Gens(x), run, |run| - 1);
  }

  /** How often the slot of arm k was armed after it. */
  ghost function Rearmed(s: Sys, k: nat): int
    requires k < |s.arms|
  {
    ArmsOf(s.arms, s.arms[k].slot) - ArmsOf(s.arms[..k + 1], s.arms[k].slot)
  }

  /** The token of arm k is accepted iff its slot is active and was armed a
      multiple of 65535 times since. So once the arm was cancelled or expired its
      token is rejected until the 65535th new arming of the slot. */
  lemma TokenLife(run: seq<Sys>, starts: bool, k: nat)
    requires IsRun(run, starts) && Start(run[0]) && |run[0].slots| <= 0xFFFF
    requires k < |run[|run| - 1].arms|
    ensures var s := run[|run| - 1]; var i := s.arms[k].slot;
      && i < |s.slots| <= 0xFFFF && Rearmed(s, k) >= 0
      && (Accepts(s.slots, TokenMake(i, s.arms[k].gen)) <==> s.slots[i].active && Rearmed(s, k) % 0xFFFF == 0)
      && (!Alive(s, k) && Rearmed(s, k) < 0xFFFF ==> !Accepts(s.slots, TokenMake(i, s.arms[k].gen)))
  {
    RunGens(run, starts);
    var s := run[|run| - 1];
    assert ArmGenOk(s, k);
    var i := s.arms[k].slot;
    TokenRoundTrip(i, s.arms[k].gen, |s.slots|, 0);
    SameGen(ArmsOf(s.arms[..k + 1], i), Rearmed(s, k));
  }

  lemma SameGen(c: nat, n: nat)
    requires c > 0
    ensures GenOf(c + n) == GenOf(c) <==> n % 0xFFFF == 0
    ensures 0 < n < 0xFFFF ==> n % 0xFFFF != 0
  {
    var g := GenOf(c);
    GenCycle(g, n);
    GenReturns(g, n);
    var q, r := (c - 1) / 0xFFFF, (c - 1) % 0xFFFF;
    assert (g - 1 + n) % 0xFFFF == (c - 1 + n) % 0xFFFF by {
      SameModulo(c - 1, n);
    }
    if 0 < n < 0xFFFF {
      ModUnique(n, 0xFFFF, 0, n);
    }
  }

  lemma SameModulo(a: nat, n: nat)
    ensures (a % 0xFFFF + n) % 0xFFFF == (a + n) % 0xFFFF
  {
  }

  ghost function Machine(): (Sys, Act) -> Option<Sys> {
    (s: Sys, a: Act) => if |s.serials| == |s.slots| then Step(s, a) else None
  }

  // ----- what does go wrong -----

  /** After the very first arm call, if the hardware timer fails to start, a
      deadline is active and nothing looks at it until the next arm or cancel call
      (`WakeupsUnderFailure`). */
  lemma FirstStartFails(s: Sys, ev: Event)
    requires Start(s) && |s.slots| > 0
    ensures Step(s, ArmOnce(0, 1, ev, false)).Some?
    ensures var u := Step(s, ArmOnce(0, 1, ev, false)).value; AnyActive(u.slots) && !Pending(u)
  {
    var u := Arm(s, 0, 1, 0, ev, false);
    EarliestMeans(u.slots);
    assert u.slots[0].active;
  }

  /** A periodic deadline of 1 us is collected; before the callback posts it, its
      owner cancels it with success. */
  function CancelActs(ev: Event): seq<Act> {
    [ArmPeriodic(0, 1, ev, true), Wait(1), Expire, Collect(1, true), Cancel(TokenMake(0, 1), 1, true)]
  }

  ghost predicate PostedDead(s: Sys, u: Sys, k: nat) {
    && k < |s.arms| && !Alive(s, k) && s.posted < u.posted <= |u.fires| && u.fires[s.posted].serial == k
  }

  /** An event of a cancelled timer is posted. */
  lemma PostAfterCancel(s: Sys, ev: Event)
    requires Start(s) && 0 < |s.slots| <= 0xFFFF && s.clock == 0
    ensures Runs.Exec(Machine(), s, CancelActs(ev)).Some?
    ensures var u := Runs.Exec(Machine(), s, CancelActs(ev)).value;
      |u.serials| == |u.slots| && Step(u, Post).Some? && PostedDead(u, Step(u, Post).value, 0)
  {
    var acts := CancelActs(ev);
    var s1 := Arm(s, 0, 1, 1, ev, true);
    FirstDue(s, s1, ev);
    var s2 := s1.(clock := 1);
    var s3 := s2.(alarm := s2.alarm.(port := Off), cb := Dispatched(1));
    var s4 := DoCollect(s3, 1, true);
    FirstFires(s3, ev);
    TokenRoundTrip(0, 1, |s.slots|, 0);
    var s5 := Disarm(s4, 0, 1, true);
    Runs.ExecLeads(Machine(), [s, s1, s2, s3, s4, s5], acts);
    assert s5.fires == s4.fires;
  }

  /** The one due slot is collected and due again a microsecond later. */
  lemma FirstFires(s: Sys, ev: Event)
    requires |s.serials| == |s.slots| > 0 && s.slots[0] == Slot(true, 1, 1, 1, ev) && s.serials[0] == 0 && s.fires == []
    ensures var u := DoCollect(s, 1, true);
      && |u.fires| > 0 && u.fires[0].serial == 0
      && |u.slots| == |s.slots| && u.slots[0] == Slot(true, 1, 2, 1, ev)
  {
    FireLogMeans(s.slots, s.serials, 1);
    FiresMeans(s.slots, 1);
    assert IsDue(s.slots[0], 1);
    assert 0 in Fires(s.slots, 1);
    NextDueOnGrid(1, 1, 1, 1);
  }

  lemma FirstDue(s: Sys, u: Sys, ev: Event)
    requires Start(s) && |s.slots| > 0 && s.clock == 0 && u == Arm(s, 0, 1, 1, ev, true)
    ensures FreeSlot(s.slots) == 0 && u.slots[0] == Slot(true, 1, 1, 1, ev) && u.serials[0] == 0
    ensures u.alarm == Alarm(true, 1, Running(1))
    ensures forall i :: 0 < i < |u.slots| ==> !u.slots[i].active
  {
    EarliestMeans(u.slots);
  }

  // ----- progress -----

  /** Acts of the hardware timer and its callback alone. */
  predicate OfTimer(a: Act) {
    a.Wait? || a.Expire? || a.Collect? || a.Post?
  }

  function Posts(n: nat): seq<Act> {
    if n == 0 then [] else [Post] + Posts(n - 1)
  }

  /** A callback that is posting comes to its end. */
  lemma {:induction false} PostsEnd(s: Sys, n: nat)
    requires |s.serials| == |s.slots| && s.cb.Posting? && s.posted + n == |s.fires|
    ensures Runs.Exec(Machine(), s, Posts(n + 1)) == Some(s.(posted := |s.fires|, cb := Resting))
    ensures forall a :: a in Posts(n + 1) ==> OfTimer(a)
    decreases n
  {
    assert Posts(n + 1)[1..] == Posts(n);
    if n > 0 {
      PostsEnd(s.(posted := s.posted + 1), n - 1);
    } else {
      assert s.(posted := |s.fires|, cb := Resting) == s.(cb := Resting);
    }
  }

  /** Somewhere among the fires added since s is the deadline that slot i had in s. */
  ghost predicate Collected(s: Sys, u: Sys, i: nat)
    requires i < |s.slots| == |s.serials|
  {
    exists j :: |s.fires| <= j < |u.fires| && u.fires[j].serial == s.serials[i] && u.fires[j].due == s.slots[i].due
  }

  lemma CollectsDue(s: Sys, now: nat, i: nat)
    requires |s.serials| == |s.slots| && i < |s.slots| && IsDue(s.slots[i], now)
    ensures Collected(s, DoCollect(s, now, true), i)
  {
    FireLogMeans(s.slots, s.serials, now);
    FiresMeans(s.slots, now);
    var f := Fires(s.slots, now);
    var k :| 0 <= k < |f| && f[k] == i;
    var u := DoCollect(s, now, true);
    assert u.fires[|s.fires| + k] == FireLog(s.slots, s.serials, now)[k];
  }

  function Later(a: nat, b: nat, c: nat): (t: nat)
    ensures t >= a && t >= b && t >= c
  {
    if a >= b && a >= c then a else if b >= c then b else c
  }

  lemma CalledServes(s: Sys, i: nat) returns (acts: seq<Act>, u: Sys)
    requires |s.serials| == |s.slots| && s.cb.Dispatched? && i < |s.slots| && s.slots[i].active
    ensures Runs.Exec(Machine(), s, acts) == Some(u) && Collected(s, u, i) && forall a :: a in acts ==> OfTimer(a)
  {
    var t := Later(s.clock, s.cb.since, s.slots[i].due);
    var called := s.(clock := t);
    u := DoCollect(called, t, true);
    CollectsDue(called, t, i);
    acts := [Wait(t - s.clock), Collect(t, true)];
    Runs.ExecLeads(Machine(), [s, called, u], acts);
  }

  lemma RestedServes(s: Sys, i: nat) returns (acts: seq<Act>, u: Sys)
    requires |s.serials| == |s.slots| && s.cb.Resting? && s.alarm.port.Running? && i < |s.slots| && s.slots[i].active
    ensures Runs.Exec(Machine(), s, acts) == Some(u) && Collected(s, u, i) && forall a :: a in acts ==> OfTimer(a)
  {
    var t := Later(s.clock, s.alarm.port.at, s.clock);
    var waited := s.(clock := t);
    var called := waited.(alarm := waited.alarm.(port := Off), cb := Dispatched(t));
    var first := [Wait(t - s.clock), Expire];
    Runs.ExecLeads(Machine(), [s, waited, called], first);
    var more;
    more, u := CalledServes(called, i);
    Runs.ExecAppend(Machine(), s, first, more);
    acts := first + more;
  }

  ghost predicate Serves(s: Sys, acts: seq<Act>, i: nat)
    requires i < |s.slots| == |s.serials|
  {
    && (forall a :: a in acts ==> OfTimer(a))
    && Runs.Exec(Machine(), s, acts).Some? && Collected(s, Runs.Exec(Machine(), s, acts).value, i)
  }

  /** No active deadline is stuck: in every reachable state time, the hardware timer
      and the callback are enough to have it collected, whatever was under way. */
  lemma DeadlineIsServed(run: seq<Sys>, i: nat) returns (acts: seq<Act>)
    requires IsRun(run, true) && Start(run[0])
    requires i < |run[|run| - 1].slots| && run[|run| - 1].slots[i].active
    ensures |run[|run| - 1].serials| == |run[|run| - 1].slots|
    ensures Serves(run[|run| - 1], acts, i)
  {
    StartInv(run[0]);
    RunHistory(run, true);
    var s := run[|run| - 1];
    EarliestMeans(s.slots);
    var rested, first := s, [];
    if s.cb.Posting? {
      PostsEnd(s, |s.fires| - s.posted);
      first := Posts(|s.fires| - s.posted + 1);
      rested := s.(posted := |s.fires|, cb := Resting);
    }
    var more, u;
    if rested.cb.Resting? {
      more, u := RestedServes(rested, i);
    } else {
      more, u := CalledServes(rested, i);
    }
    Runs.ExecAppend(Machine(), s, first, more);
    acts := first + more;
  }

  // ----- punctuality -----

  /** The call read its clock at most `lag` before it got the mutex. */
  predicate Prompt(s: Sys, a: Act, lag: nat) {
    match a
    case ArmOnce(now, _, _, _) => s.clock <= now + lag
    case ArmPeriodic(now, _, _, _) => s.clock <= now + lag
    case Cancel(_, now, _) => s.clock <= now + lag
    case Collect(now, _) => s.clock <= now + lag
    case _ => true
  }

  /** The hardware timer goes off not before the earliest deadline, and not later
      than that plus the lag or else a microsecond from now. */
  ghost predicate Punctual(s: Sys, lag: nat) {
    && (s.alarm.armed && s.alarm.port.Running? ==> s.alarm.port.at >= s.alarm.due)
    && (s.alarm.armed && !s.cb.Dispatched? ==>
          s.alarm.port.Running? && (s.alarm.port.at <= s.alarm.due + lag || s.alarm.port.at <= s.clock + 1))
  }

  lemma StepPunctual(s: Sys, a: Act, lag: nat)
    requires Punctual(s, lag) && |s.serials| == |s.slots|
    requires StartsOk(a) && Prompt(s, a, lag) && Step(s, a).Some?
    ensures Punctual(Step(s, a).value, lag)
  {
  }

  ghost predicate PromptStep(s: Sys, a: Act, u: Sys, lag: nat) {
    Takes(s, a, u, true) && Prompt(s, a, lag)
  }

  ghost predicate FollowsPromptly(s: Sys, u: Sys, lag: nat) {
    exists a :: PromptStep(s, a, u, lag)
  }

  ghost function NextPromptly(lag: nat): (Sys, Sys) -> bool {
    (s: Sys, u: Sys) => FollowsPromptly(s, u, lag)
  }

  ghost predicate IsPromptRun(run: seq<Sys>, lag: nat) {
    Runs.IsRun(NextPromptly(lag), run)
  }

  lemma FollowPunctual(s: Sys, u: Sys, lag: nat)
    requires Punctual(s, lag) && FollowsPromptly(s, u, lag)
    ensures Punctual(u, lag)
  {
    var a :| PromptStep(s, a, u, lag);
    StepPunctual(s, a, lag);
  }

  /** If every call gets the mutex within `lag` of its clock read, the hardware
      timer is never set before the earliest deadline, nor later than `lag` after
      it, or 1 us from now. */
  lemma DeadlinesPunctual(run: seq<Sys>, lag: nat)
    requires IsPromptRun(run, lag) && Start(run[0])
    ensures Punctual(run[|run| - 1], lag)
  {
    forall s, u | NextPromptly(lag)(s, u) && ((x: Sys) => Punctual(x, lag))(s)
      ensures Punctual(u, lag)
    {
      FollowPunctual(s, u, lag);
    }
    Runs.Invariant(NextPromptly(lag), (x: Sys) => Punctual(x, lag), run, |run| - 1);
  }
}
