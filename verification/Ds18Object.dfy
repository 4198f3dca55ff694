/** The temperature service in place: the callbacks and the task's reaction to a
    message, run without interruption. Each is proved to be those steps of the
    machine in `Ds18` that it consists of. */
module Ds18Object {
  import opened Wrappers
  import Runs
  import opened Ds18

  class Service {
    const bits: int
    var st: State
    var queue: seq<Item>
    var once: Once
    var clock: nat
    ghost var conv: nat
    ghost var expired: nat
    ghost var startedAt: nat
    ghost var dropped: bool
    ghost var pads: seq<nat>

    constructor (bits: int)
      ensures Start(Value()) && this.bits == bits
    {
      this.bits := bits;
      st, queue, once, clock := IDLE, [], Off, 0;
      conv, expired, startedAt, dropped, pads := 0, 0, 0, false, [];
    }

    /** The machine between two callbacks or messages. */
    ghost function Value(): Sys
      reads this
    {
      Sys(st, queue, Out, once, Waiting, clock, bits, conv, expired, startedAt, dropped, pads)
    }

    method Post(x: Item)
      modifies this`queue, this`dropped
      ensures queue == if |old(queue)| < DEPTH then old(queue) + [x] else old(queue)
      ensures dropped == (old(dropped) || (x.Tick? && |old(queue)| >= DEPTH))
    {
      if |queue| < DEPTH {
        queue := queue + [x];
      } else if x.Tick? {
        dropped := true;
      }
    }

    /** `timer_period_cb` */
    method PeriodCallback()
      requires !once.Firing?
      modifies this
      ensures Exec(old(Value()), if old(st) == IDLE then [PeriodFires, PeriodMarks, PeriodPosts] else [PeriodFires])
           == Some(Value())
    {
      ghost var s := Value();
      if st == IDLE {
        st := KICK;
        Post(Tick);
        Three(s, PeriodFires, PeriodMarks, PeriodPosts);
      } else {
        OneStep(s, PeriodFires);
      }
    }

    /** `timer_once_cb`, called by the timer once its deadline has passed */
    method OnceCallback()
      requires once.Running? && once.at <= clock
      modifies this
      ensures Exec(old(Value()), [OnceFires, OncePosts]) == Some(Value())
    {
      ghost var s := Value();
      once := Off;
      expired := conv;
      Post(Tick);
      Two(s, OnceFires, OncePosts);
    }

    /** `start_once` */
    method Restart(ms: nat)
      modifies this`once
      ensures once == Running(clock + ms)
    {
      once := Off;
      once := Running(clock + ms);
    }

    /** `process_sm` after a tick, in the states that act; `ok` says whether the
        sensor answered, `lease` whether the pool had a slot for the result. */
    method ProcessSm(ok: bool, lease: bool)
      modifies this
      ensures Value() == Processed(old(Value()), ok, lease)
    {
      match st {
        case KICK =>
          if ok {
            conv := conv + 1;
            st := WAIT;
            Restart(MsForRes(bits) + 20);
            startedAt := clock;
          } else {
            Post(Other);
            st := IDLE;
          }
        case READ =>
          pads := pads + [conv];
          if !ok || lease {
            Post(Other);
          }
          st := IDLE;
        case _ =>
      }
    }

    /** The task's loop body: one message of the queue. */
    method HandleMessage(ok: bool, lease: bool)
      requires queue != []
      modifies this
      ensures Exec(old(Value()), Handling(old(queue)[0], old(st), ok, lease)) == Some(Value())
    {
      ghost var s := Value();
      var m := queue[0];
      queue := queue[1..];
      if m.Tick? {
        if st == WAIT {
          st := READ;
          ProcessSm(ok, lease);
          TickHandled(s, ok, lease);
        } else if st == KICK {
          ProcessSm(ok, lease);
          TickHandled(s, ok, lease);
        } else if st == IDLE {
          st := KICK;
          ProcessSm(ok, lease);
          TickHandled(s, ok, lease);
        } else {
          Two(s, Take, Dispatch);
        }
      } else {
        OneStep(s, Take);
      }
    }
  }

  function Processed(s: Sys, ok: bool, lease: bool): Sys {
    match s.st
    case KICK =>
      if ok then s.(conv := s.conv + 1, st := WAIT, once := Running(s.clock + Delay(s.bits)), startedAt := s.clock)
      else PostOther(s).(st := IDLE)
    case READ => (if !ok || lease then PostOther(s) else s).(pads := s.pads + [s.conv], st := IDLE)
    case _ => s
  }

  /** The uninterrupted reaction to a tick is four steps of the machine. */
  lemma TickHandled(s: Sys, ok: bool, lease: bool)
    requires s.queue != [] && s.queue[0] == Tick && s.task == Waiting && s.st != READ
    ensures Exec(s, Handling(Tick, s.st, ok, lease))
         == Some(Processed(s.(queue := s.queue[1..], st := if s.st == WAIT then READ else KICK), ok, lease))
  {
    var t := s.(queue := s.queue[1..], st := if s.st == WAIT then READ else KICK);
    assert Step(Step(s, Take).value, Dispatch) == Some(t.(task := if s.st == WAIT then Reading else Converting));
    if s.st == WAIT {
      Four(s, Take, Dispatch, ReadPad, Finish(!ok || lease));
    } else {
      Four(s, Take, Dispatch, Convert(ok), if ok then StartOnce else GiveUp);
    }
  }

  function Handling(x: Item, st: State, ok: bool, lease: bool): seq<Act> {
    if x.Other? then [Take]
    else if st == READ then [Take, Dispatch]
    else if st == WAIT then [Take, Dispatch, ReadPad, Finish(!ok || lease)]
    else [Take, Dispatch, Convert(ok), if ok then StartOnce else GiveUp]
  }

  lemma OneStep(s: Sys, a: Act)
    requires Step(s, a).Some?
    ensures Exec(s, [a]) == Step(s, a)
  {
    Runs.ExecLeads(Machine(), [s, Step(s, a).value], [a]);
  }

  lemma Two(s: Sys, a: Act, b: Act)
    requires Step(s, a).Some? && Step(Step(s, a).value, b).Some?
    ensures Exec(s, [a, b]) == Step(Step(s, a).value, b)
  {
    var u := Step(s, a).value;
    Runs.ExecLeads(Machine(), [s, u, Step(u, b).value], [a, b]);
  }

  lemma Three(s: Sys, a: Act, b: Act, c: Act)
    requires Step(s, a).Some? && Step(Step(s, a).value, b).Some? && Step(Step(Step(s, a).value, b).value, c).Some?
    ensures Exec(s, [a, b, c]) == Step(Step(Step(s, a).value, b).value, c)
  {
    var u := Step(s, a).value;
    var v := Step(u, b).value;
    Runs.ExecLeads(Machine(), [s, u, v, Step(v, c).value], [a, b, c]);
  }

  lemma Four(s: Sys, a: Act, b: Act, c: Act, d: Act)
    requires Step(s, a).Some? && Step(Step(s, a).value, b).Some? && Step(Step(Step(s, a).value, b).value, c).Some?
    requires Step(Step(Step(Step(s, a).value, b).value, c).value, d).Some?
    ensures Exec(s, [a, b, c, d]) == Step(Step(Step(Step(s, a).value, b).value, c).value, d)
  {
    var u := Step(s, a).value;
    var v := Step(u, b).value;
    var w := Step(v, c).value;
    Runs.ExecLeads(Machine(), [s, u, v, w, Step(w, d).value], [a, b, c, d]);
  }
}
