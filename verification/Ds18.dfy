/** The temperature service's tick machine (services__ds18b20_ev): the periodic
    callback, the one-shot callback and the task share one state variable and
    wake each other through a bounded queue. */
module Ds18 {
  import opened Words
  import opened Wrappers
  import Runs

  const DEPTH: nat := 8

  datatype State = IDLE | KICK | WAIT | READ

  datatype Item = Tick | Other

  /** Where the periodic callback is: not running, has seen IDLE, has written KICK. */
  datatype Period = Out | Saw | Marked

  /** The one-shot: stopped, running, or its callback about to post. */
  datatype Once = Off | Running(at: nat) | Firing

  /** Where the task is: waiting, tick taken, about to convert, about to start the
      one-shot, conversion failed, about to read, result read. */
  datatype Task = Waiting | Got | Converting | Arming | Failing | Reading | Finishing

  /** `conv` counts conversions, `expired` is the last one whose one-shot went off,
      `startedAt` the time its one-shot was started, `dropped` tells whether a tick
      was lost to a full queue, `pads` lists the conversions whose result was read. */
  datatype Sys = Sys(
    st: State, queue: seq<Item>, period: Period, once: Once, task: Task, clock: nat, bits: int,
    conv: nat, expired: nat, startedAt: nat, dropped: bool, pads: seq<nat>)

  datatype Act =
    | Pass(n: nat)
    | PeriodFires
    | PeriodMarks
    | PeriodPosts
    | OnceFires
    | OncePosts
    | Take
    | Dispatch
    | Convert(ok: bool)
    | StartOnce
    | GiveUp
    | ReadPad
    | Finish(said: bool)
    | Foreign

  function MsForRes(bits: int): nat {
    if bits == 9 then 94 else if bits == 10 then 188 else if bits == 11 then 375 else 750
  }

  function Delay(bits: int): nat {
    MsForRes(bits) + 20
  }

  /** A conversion of this resolution is over after n ms: 750 ms at 12 bits, half as
      much for each bit less. */
  ghost predicate LongEnough(n: nat, bits: int) {
    9 <= bits <= 12 && n * Pow2((12 - bits) as nat) >= 750
  }

  /** The table has the least number of milliseconds that is long enough; any other
      setting waits as for 12 bits. */
  lemma ConversionTime(bits: int)
    ensures 9 <= bits <= 12 ==>
      LongEnough(MsForRes(bits), bits) && forall n: nat :: LongEnough(n, bits) ==> n >= MsForRes(bits)
    ensures !(9 <= bits <= 12) ==> MsForRes(bits) == 750
  {
    assert Pow2(1) == 2 && Pow2(2) == 4 && Pow2(3) == 8;
  }

  /** The task arms the one-shot for the conversion time and 20 ms. */
  lemma OneShotTime(s: Sys)
    requires s.task.Arming?
    ensures Step(s, StartOnce).Some?
    ensures var u := Step(s, StartOnce).value;
      u.once.Running? && u.once.at >= s.clock + 20
      && (9 <= s.bits <= 12 ==>
            && LongEnough(u.once.at - s.clock - 20, s.bits)
            && forall n: nat :: LongEnough(n, s.bits) ==> s.clock + n + 20 >= u.once.at)
      && (!(9 <= s.bits <= 12) ==> u.once.at == s.clock + 770)
  {
    ConversionTime(s.bits);
  }

  function PostTick(s: Sys): Sys {
    if |s.queue| < DEPTH then s.(queue := s.queue + [Tick]) else s.(dropped := true)
  }

  /** Any other message of the bus, including this service's own results. */
  function PostOther(s: Sys): Sys {
    if |s.queue| < DEPTH then s.(queue := s.queue + [Other]) else s
  }

  function Step(s: Sys, a: Act): Option<Sys> {
    match a
    case Pass(n) => Some(s.(clock := s.clock + n))
    case PeriodFires =>
      if s.period.Out? && !s.once.Firing? then Some(if s.st == IDLE then s.(period := Saw) else s) else None
    case PeriodMarks => if s.period.Saw? then Some(s.(st := KICK, period := Marked)) else None
    case PeriodPosts => if s.period.Marked? then Some(PostTick(s.(period := Out))) else None
    case OnceFires =>
      if s.once.Running? && s.once.at <= s.clock && s.period.Out? then
        Some(s.(once := Firing, expired := s.conv))
      else None
    case OncePosts => if s.once.Firing? then Some(PostTick(s.(once := Off))) else None
    case Take =>
      if s.task.Waiting? && s.queue != [] then
        Some(s.(queue := s.queue[1..], task := if s.queue[0].Tick? then Got else Waiting))
      else None
    case Dispatch => if s.task.Got? then Some(OnTick(s)) else None
    case Convert(ok) =>
      if s.task.Converting? then
        Some(if ok then s.(conv := s.conv + 1, st := WAIT, task := Arming) else s.(task := Failing))
      else None
    case StartOnce =>
      if s.task.Arming? then Some(s.(once := Running(s.clock + Delay(s.bits)), startedAt := s.clock, task := Waiting))
      else None
    case GiveUp => if s.task.Failing? then Some(PostOther(s).(st := IDLE, task := Waiting)) else None
    case ReadPad => if s.task.Reading? then Some(s.(pads := s.pads + [s.conv], task := Finishing)) else None
    case Finish(said) =>
      if s.task.Finishing? then Some((if said then PostOther(s) else s).(st := IDLE, task := Waiting)) else None
    case Foreign => Some(PostOther(s))
  }

  /** What the task does with a tick. */
  function OnTick(s: Sys): Sys {
    match s.st
    case WAIT => s.(st := READ, task := Reading)
    case KICK => s.(task := Converting)
    case IDLE => s.(st := KICK, task := Converting)
    case READ => s.(task := Waiting)
  }

  // ----- outstanding wake-ups -----

  function Ticks(queue: seq<Item>): nat {
    multiset(queue)[Tick]
  }

  /** Everything that will still make the task run: queued ticks, the running
      one-shot, callbacks about to post a tick, and a tick being handled. */
  function Wakeups(s: Sys): nat {
    Ticks(s.queue) + One(!s.once.Off?) + One(s.period.Marked?) + One(!s.task.Waiting?)
  }

  /** Which wake-up belongs to which state, and what it knows. */
  ghost predicate Fits(s: Sys) {
    && (s.period.Saw? ==> s.st == IDLE)
    && (s.period.Marked? ==> s.st == KICK)
    && (!s.period.Out? ==> !s.once.Firing?)
    && (s.once.Running? ==> s.st == WAIT && s.once.at == s.startedAt + Delay(s.bits))
    && (s.task.Converting? || s.task.Failing? ==> s.st == KICK)
    && (s.task.Arming? ==> s.st == WAIT)
    && (s.task.Reading? || s.task.Finishing? <==> s.st == READ)
    && (s.task.Got? ==> s.st == KICK || s.st == WAIT)
    && (s.once.Firing? ==> s.st == WAIT)
    && ((Ripe(s) || s.st == READ) ==> s.expired == s.conv && s.startedAt + Delay(s.bits) <= s.clock)
  }

  /** A wake-up that a conversion's one-shot caused is on its way to the task. */
  ghost predicate Ripe(s: Sys) {
    s.st == WAIT && (s.once.Firing? || Ticks(s.queue) > 0 || s.task.Got?)
  }

  /** A conversion that was read is not the one still to be read. */
  ghost predicate PadOk(s: Sys, c: nat) {
    c <= s.conv && (s.st == WAIT || s.task.Reading? ==> c < s.conv)
  }

  ghost predicate Inv(s: Sys) {
    && Fits(s)
    && Wakeups(s) == (if s.st == IDLE || s.dropped then 0 else 1)
    && (forall i :: 0 <= i < |s.pads| ==> PadOk(s, s.pads[i]))
    && (forall i, j :: 0 <= i < j < |s.pads| ==> s.pads[i] < s.pads[j])
    && s.expired <= s.conv && |s.queue| <= 8
    && (s.dropped ==> s.st == KICK || s.st == WAIT)
  }

  lemma TicksAppend(queue: seq<Item>, x: Item)
    ensures Ticks(queue + [x]) == Ticks(queue) + One(x.Tick?)
  {
  }

  lemma TicksTake(queue: seq<Item>)
    requires queue != []
    ensures Ticks(queue) == One(queue[0].Tick?) + Ticks(queue[1..])
  {
    assert queue == [queue[0]] + queue[1..];
  }

  lemma PeriodInv(s: Sys, a: Act)
    requires Inv(s) && Step(s, a).Some? && (a.PeriodFires? || a.PeriodMarks? || a.PeriodPosts?)
    ensures Inv(Step(s, a).value)
  {
    TicksAppend(s.queue, Tick);
  }

  lemma OnceInv(s: Sys, a: Act)
    requires Inv(s) && Step(s, a).Some? && (a.OnceFires? || a.OncePosts? || a.Pass?)
    ensures Inv(Step(s, a).value)
  {
    TicksAppend(s.queue, Tick);
  }

  lemma TaskInv(s: Sys, a: Act)
    requires Inv(s) && Step(s, a).Some?
    requires a.Dispatch? || a.Convert? || a.StartOnce? || a.ReadPad?
    ensures Inv(Step(s, a).value)
  {
  }

  lemma GiveUpInv(s: Sys)
    requires Inv(s) && Step(s, GiveUp).Some?
    ensures Inv(Step(s, GiveUp).value)
  {
    TicksAppend(s.queue, Other);
  }

  lemma FinishInv(s: Sys, said: bool)
    requires Inv(s) && Step(s, Finish(said)).Some?
    ensures Inv(Step(s, Finish(said)).value)
  {
    TicksAppend(s.queue, Other);
  }

  lemma ForeignInv(s: Sys)
    requires Inv(s)
    ensures Inv(PostOther(s))
  {
    TicksAppend(s.queue, Other);
  }

  lemma TakeInv(s: Sys)
    requires Inv(s) && Step(s, Take).Some?
    ensures Inv(Step(s, Take).value)
  {
    TicksTake(s.queue);
  }

  /** Every step keeps the invariant. */
  lemma StepInv(s: Sys, a: Act)
    requires Inv(s) && Step(s, a).Some?
    ensures Inv(Step(s, a).value)
  {
    match a {
      case Dispatch => TaskInv(s, a);
      case Convert(_) => TaskInv(s, a);
      case StartOnce => TaskInv(s, a);
      case ReadPad => TaskInv(s, a);
      case GiveUp => GiveUpInv(s);
      case Finish(said) => FinishInv(s, said);
      case Foreign => ForeignInv(s);
      case Take => TakeInv(s);
      case PeriodFires => PeriodInv(s, a);
      case PeriodMarks => PeriodInv(s, a);
      case PeriodPosts => PeriodInv(s, a);
      case _ => OnceInv(s, a);
    }
  }

  // ----- runs -----

  ghost predicate Start(s: Sys) {
    && AtRest(s)
    && s.conv == 0 && s.expired == 0 && !s.dropped && s.pads == []
  }

  ghost predicate Follows(s: Sys, u: Sys) {
    exists a :: Step(s, a) == Some(u)
  }

  ghost function Next(): (Sys, Sys) -> bool {
    (s: Sys, u: Sys) => Follows(s, u)
  }

  ghost predicate IsRun(run: seq<Sys>) {
    Runs.IsRun(Next(), run)
  }

  lemma FollowInv(s: Sys, u: Sys)
    requires Inv(s) && Follows(s, u)
    ensures Inv(u)
  {
    var a :| Step(s, a) == Some(u);
    StepInv(s, a);
  }

  lemma RunInv(run: seq<Sys>)
    requires IsRun(run) && Inv(run[0])
    ensures Inv(run[|run| - 1])
  {
    forall s, u | Next()(s, u) && ((x: Sys) => Inv(x))(s)
      ensures Inv(u)
    {
      FollowInv(s, u);
    }
    Runs.Invariant(Next(), (x: Sys) => Inv(x), run, |run| - 1);
  }

  /** In every interleaving there is at most one wake-up on its way, none in IDLE,
      and outside IDLE exactly one if and only if no tick was ever dropped. */
  lemma OneWakeup(run: seq<Sys>)
    requires IsRun(run) && Start(run[0])
    ensures var s := run[|run| - 1];
      && Wakeups(s) <= 1 && (s.st == IDLE ==> Wakeups(s) == 0)
      && (s.st != IDLE ==> (Wakeups(s) == 1 <==> !s.dropped))
      && |s.queue| <= 8
  {
    RunInv(run);
  }

  /** No tick is ever handled in IDLE, nor in READ: those branches are unreachable. */
  lemma TicksHaveWork(run: seq<Sys>)
    requires IsRun(run) && Start(run[0]) && run[|run| - 1].task.Got?
    ensures run[|run| - 1].st == KICK || run[|run| - 1].st == WAIT
  {
    RunInv(run);
  }

  /** The scratchpad is read only after the one-shot of that very conversion went
      off, and so only after the conversion time of its resolution and 20 ms. */
  lemma ReadsAreRipe(run: seq<Sys>)
    requires IsRun(run) && Start(run[0]) && run[|run| - 1].task.Reading?
    ensures var s := run[|run| - 1];
      && s.expired == s.conv && s.clock >= s.startedAt + 20
      && (9 <= s.bits <= 12 ==> LongEnough(s.clock - s.startedAt - 20, s.bits))
      && (!(9 <= s.bits <= 12) ==> s.clock - s.startedAt >= 770)
  {
    RunInv(run);
    var s := run[|run| - 1];
    ConversionTime(s.bits);
    if 9 <= s.bits <= 12 {
      Scaled(MsForRes(s.bits), s.clock - s.startedAt - 20, Pow2((12 - s.bits) as nat));
    }
  }

  lemma Scaled(a: nat, b: nat, m: nat)
    requires a <= b
    ensures a * m <= b * m
  {
  }

  /** No conversion is read twice, and they are read in order. */
  lemma EachReadOnce(run: seq<Sys>, i: nat, j: nat)
    requires IsRun(run) && Start(run[0]) && i < j < |run[|run| - 1].pads|
    ensures run[|run| - 1].pads[i] < run[|run| - 1].pads[j]
  {
    RunInv(run);
  }

  ghost predicate Frozen(s: Sys, u: Sys) {
    u.dropped && u.st == s.st && u.conv == s.conv && u.pads == s.pads
  }

  lemma StuckStep(s: Sys, u: Sys)
    requires Inv(s) && s.dropped && Follows(s, u)
    ensures Inv(u) && Frozen(s, u)
  {
    var a :| Step(s, a) == Some(u);
    StepInv(s, a);
    if a.Take? {
      TicksTake(s.queue);
    }
  }

  /** A dropped tick stops the service for good: from then on, whatever happens,
      the state stays KICK or WAIT and no conversion or reading takes place. */
  lemma DropIsForever(run: seq<Sys>)
    requires IsRun(run) && Inv(run[0]) && run[0].dropped
    ensures Inv(run[|run| - 1]) && Frozen(run[0], run[|run| - 1])
    ensures run[0].st == KICK || run[0].st == WAIT
  {
    var stuck := (x: Sys) => Inv(x) && Frozen(run[0], x);
    forall s, u | Next()(s, u) && stuck(s)
      ensures stuck(u)
    {
      StuckStep(s, u);
    }
    Runs.Invariant(Next(), stuck, run, |run| - 1);
  }

  /** If this action posts a tick, the queue has room for it. */
  predicate RoomFor(s: Sys, a: Act) {
    a.PeriodPosts? || a.OncePosts? ==> |s.queue| < 8
  }

  ghost predicate FoundRoom(s: Sys, acts: seq<Act>, i: nat)
    requires i < |acts|
  {
    Exec(s, acts[..i]).Some? && RoomFor(Exec(s, acts[..i]).value, acts[i])
  }

  lemma {:induction false} DropStays(s: Sys, acts: seq<Act>)
    requires s.dropped && Exec(s, acts).Some?
    ensures Exec(s, acts).value.dropped
    decreases |acts|
  {
    if acts != [] {
      DropStays(Step(s, acts[0]).value, acts[1..]);
    }
  }

  lemma RoomLater(s: Sys, acts: seq<Act>, i: nat)
    requires 0 < i < |acts| && Step(s, acts[0]).Some?
    ensures FoundRoom(s, acts, i) <==> FoundRoom(Step(s, acts[0]).value, acts[1..], i - 1)
  {
    assert acts[..i][1..] == acts[1..][..i - 1];
  }

  /** A run drops no tick if and only if each of its posts of a tick, by the
      periodic or by the one-shot callback, found room in the queue. */
  lemma {:induction false} NoDropIff(s: Sys, acts: seq<Act>)
    requires !s.dropped && Exec(s, acts).Some?
    ensures !Exec(s, acts).value.dropped <==> forall i :: 0 <= i < |acts| ==> FoundRoom(s, acts, i)
    decreases |acts|
  {
    if acts != [] {
      var u, rest := Step(s, acts[0]).value, acts[1..];
      assert u.dropped <==> !RoomFor(s, acts[0]);
      assert FoundRoom(s, acts, 0) <==> RoomFor(s, acts[0]);
      if u.dropped {
        DropStays(u, rest);
      } else {
        NoDropIff(u, rest);
        forall i | 0 < i < |acts|
          ensures FoundRoom(s, acts, i) <==> FoundRoom(u, rest, i - 1)
        {
          RoomLater(s, acts, i);
        }
        forall i | 0 <= i < |rest|
          ensures FoundRoom(u, rest, i) <==> FoundRoom(s, acts, i + 1)
        {
          RoomLater(s, acts, i + 1);
        }
      }
    }
  }

  /** One measurement: the periodic callback and the task start a conversion, the
      one-shot and the task read it. */
  function Begun(): seq<Act> {
    [PeriodFires, PeriodMarks, PeriodPosts, Take, Dispatch, Convert(true), StartOnce]
  }

  function Ripened(bits: int): seq<Act> {
    [Pass(Delay(bits)), OnceFires, OncePosts]
  }

  function Ended(said: bool): seq<Act> {
    [Take, Dispatch, ReadPad, Finish(said)]
  }

  ghost predicate AtRest(s: Sys) {
    s.st == IDLE && s.queue == [] && s.period == Out && s.once == Off && s.task == Waiting
  }

  lemma Begins(s: Sys)
    requires AtRest(s)
    ensures Exec(s, Begun()) == Some(s.(
      st := WAIT, conv := s.conv + 1, once := Running(s.clock + Delay(s.bits)), startedAt := s.clock))
  {
    var a := s.(st := KICK, queue := [Tick]);
    var b := a.(queue := [], task := Got);
    var c := b.(st := WAIT, conv := s.conv + 1, task := Arming);
    assert [] + [Tick] == [Tick] && [Tick][1..] == [];
    Runs.ExecLeads(Machine(),
      [s, s.(period := Saw), s.(st := KICK, period := Marked), a, b, b.(task := Converting), c,
       c.(task := Waiting, once := Running(s.clock + Delay(s.bits)), startedAt := s.clock)], Begun());
  }

  lemma Ripens(s: Sys)
    requires s.st == WAIT && s.queue == [] && s.period == Out && s.once == Running(s.clock + Delay(s.bits))
    ensures Exec(s, Ripened(s.bits)) == Some(s.(
      once := Off, expired := s.conv, clock := s.clock + Delay(s.bits), queue := [Tick]))
  {
    var a := s.(clock := s.clock + Delay(s.bits));
    assert [] + [Tick] == [Tick];
    Runs.ExecLeads(Machine(), [s, a, a.(once := Firing, expired := s.conv),
                               a.(once := Off, expired := s.conv, queue := [Tick])], Ripened(s.bits));
  }

  lemma Ends(s: Sys, said: bool)
    requires s.st == WAIT && s.queue == [Tick] && s.task == Waiting
    ensures Exec(s, Ended(said)) == Some(s.(
      st := IDLE, pads := s.pads + [s.conv], queue := if said then [Other] else []))
  {
    var a := s.(queue := [], task := Got);
    var b := a.(st := READ, task := Reading);
    var c := b.(pads := s.pads + [s.conv], task := Finishing);
    assert [Tick][1..] == [] && [] + [Other] == [Other];
    Runs.ExecLeads(Machine(),
      [s, a, b, c, c.(st := IDLE, task := Waiting, queue := if said then [Other] else [])], Ended(said));
  }

  /** A service at rest does measure: one conversion is made and read, the state is
      IDLE again, and the result is on the bus if it was sent. */
  lemma CycleReads(s: Sys, said: bool)
    requires AtRest(s)
    ensures Exec(s, Begun() + Ripened(s.bits) + Ended(said)).Some?
    ensures var u := Exec(s, Begun() + Ripened(s.bits) + Ended(said)).value;
      && u.st == IDLE && u.task == Waiting && u.once == Off && u.dropped == s.dropped
      && u.conv == s.conv + 1 && u.pads == s.pads + [s.conv + 1] && u.queue == (if said then [Other] else [])
  {
    Begins(s);
    var t := Exec(s, Begun()).value;
    Ripens(t);
    Runs.ExecAppend(Machine(), s, Begun(), Ripened(s.bits));
    Ends(Exec(t, Ripened(s.bits)).value, said);
    Runs.ExecAppend(Machine(), s, Begun() + Ripened(s.bits), Ended(said));
  }

  /** When the sensor does not answer there is no conversion; the service says so on
      the bus and is at rest again. */
  lemma CycleFails(s: Sys)
    requires AtRest(s)
    ensures Exec(s, [PeriodFires, PeriodMarks, PeriodPosts, Take, Dispatch, Convert(false), GiveUp])
         == Some(s.(queue := [Other]))
  {
    var a := s.(st := KICK, queue := [Tick]);
    var b := a.(queue := [], task := Got);
    assert [] + [Tick] == [Tick] && [Tick][1..] == [] && [] + [Other] == [Other];
    Runs.ExecLeads(Machine(),
      [s, s.(period := Saw), s.(st := KICK, period := Marked), a, b, b.(task := Converting), b.(task := Failing),
       s.(queue := [Other])], [PeriodFires, PeriodMarks, PeriodPosts, Take, Dispatch, Convert(false), GiveUp]);
  }

  /** A drop does happen: when other messages fill the queue before the callback posts. */
  lemma DropIsPossible(s: Sys)
    requires Start(s)
    ensures exists u: Sys :: Reached(s, Flood(DEPTH) + [PeriodFires, PeriodMarks, PeriodPosts], u) && u.dropped
  {
    var acts := [PeriodFires, PeriodMarks, PeriodPosts];
    Flooded(s, DEPTH);
    var f := Exec(s, Flood(DEPTH)).value;
    var f1 := f.(period := Saw);
    var f2 := f1.(st := KICK, period := Marked);
    var f3 := f2.(period := Out, dropped := true);
    Runs.ExecLeads(Machine(), [f, f1, f2, f3], acts);
    Runs.ExecAppend(Machine(), s, Flood(DEPTH), acts);
    assert Reached(s, Flood(DEPTH) + acts, f3);
  }

  ghost predicate Reached(s: Sys, acts: seq<Act>, u: Sys) {
    Exec(s, acts) == Some(u)
  }

  ghost function Machine(): (Sys, Act) -> Option<Sys> {
    (s, a) => Step(s, a)
  }

  ghost function Exec(s: Sys, acts: seq<Act>): Option<Sys> {
    Runs.Exec(Machine(), s, acts)
  }

  function Flood(n: nat): seq<Act> {
    if n == 0 then [] else [Foreign] + Flood(n - 1)
  }

  lemma {:induction false} Flooded(s: Sys, n: nat)
    requires |s.queue| + n <= DEPTH
    ensures Exec(s, Flood(n)).Some?
    ensures var u := Exec(s, Flood(n)).value; u == s.(queue := u.queue) && |u.queue| == |s.queue| + n
    decreases n
  {
    if n > 0 {
      assert Flood(n)[1..] == Flood(n - 1);
      Flooded(PostOther(s), n - 1);
    }
  }
}
