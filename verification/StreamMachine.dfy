/** The all-or-nothing writer of the log stream against a consumer that may take
    a step between any two of its index loads, byte copies and index stores, and
    whose index the writer may see late. */
module StreamMachine {
  import opened Words
  import opened Wrappers
  import opened SpscRing
  import opened SpscMachine
  import Runs

  /** Where `infra_log_stream_write_all` is: before its check, about to reserve,
      copying byte k of n, finished, refused by the check, or failed in the loop. */
  datatype Phase =
    | Checking
    | Asking(rest: seq<Byte>, rounds: nat)
    | Copying(rest: seq<Byte>, n: nat, k: nat, rounds: nat)
    | Wrote(rounds: nat)
    | Refused
    | Failed

  datatype Writer = Writer(ring: State, data: seq<Byte>, ph: Phase)

  datatype Act =
    | Check(view: nat)
    | Ask(view: nat)
    | Copy
    | Publish
    | Consumer(a: Action)

  /** What `spsc_ring_free` computes from a view of the consumer's index. */
  function FreeSeen(r: State, view: nat): nat {
    var used := UsedOf(r.head, view % U32_MOD);
    if used >= r.cap then 0 else r.cap - used
  }

  function Do(w: Writer, a: Act): Option<Writer> {
    match (a, w.ph)
    case (Check(view), Checking) =>
      if !(w.ring.pSeen <= view <= |w.ring.got|) then None
      else if w.data == [] || FreeSeen(w.ring, view) < |w.data| then Some(w.(ph := Refused))
      else Some(w.(ring := w.ring.(pSeen := view), ph := Asking(w.data, 0)))
    case (Ask(view), Asking(rest, rounds)) =>
      (match Step(w.ring, Reserve(|rest|, view))
       case None => None
       case Some(r) =>
         if r.producer.Writing? then Some(w.(ring := r, ph := Copying(rest, r.producer.n, 0, rounds)))
         else Some(w.(ring := r, ph := Failed)))
    case (Copy, Copying(rest, n, k, rounds)) =>
      if k < n && k < |rest| then
        (match Step(w.ring, Write(k, rest[k]))
         case None => None
         case Some(r) => Some(w.(ring := r, ph := Copying(rest, n, k + 1, rounds))))
      else None
    case (Publish, Copying(rest, n, k, rounds)) =>
      if k == n && n <= |rest| then
        (match Step(w.ring, Commit(n))
         case None => None
         case Some(r) =>
           Some(w.(ring := r, ph := if n == |rest| then Wrote(rounds + 1) else Asking(rest[n..], rounds + 1))))
      else None
    case (Consumer(c), _) =>
      if !c.Peek? && !c.Consume? then None
      else
        (match Step(w.ring, c)
         case None => None
         case Some(r) => Some(w.(ring := r)))
    case _ => None
  }

  /** As far as the writer has seen, k more bytes fit. */
  ghost predicate Room(r: State, k: nat) {
    |r.sent| + k <= r.pSeen + r.cap
  }

  ghost predicate Copied(r: State, rest: seq<Byte>, k: nat) {
    && |r.sent| % r.cap + k <= |r.cells| && k <= |rest|
    && r.cells[|r.sent| % r.cap..|r.sent| % r.cap + k] == rest[..k]
  }

  /** `base` is the stream when the call began. */
  ghost predicate Ok(w: Writer, base: seq<Byte>) {
    && Inv(w.ring)
    && match w.ph
       case Checking => w.ring.sent == base
       case Refused => w.ring.sent == base
       case Failed => false
       case Wrote(rounds) => w.ring.sent == base + w.data && 1 <= rounds <= 2
       case Asking(rest, rounds) =>
         && rest != [] && Room(w.ring, |rest|) && w.ring.sent + rest == base + w.data
         && rounds <= 1 && (rounds == 1 ==> |w.ring.sent| % w.ring.cap == 0)
       case Copying(rest, n, k, rounds) =>
         && rest != [] && Room(w.ring, |rest|) && w.ring.sent + rest == base + w.data
         && rounds <= 1 && (rounds == 1 ==> |w.ring.sent| % w.ring.cap == 0)
         && w.ring.producer == Writing(n) && k <= n
         && n == Min(|rest|, w.ring.cap - |w.ring.sent| % w.ring.cap) && Copied(w.ring, rest, k)
  }

  lemma FreeMeans(r: State, view: nat)
    requires Inv(r) && r.pSeen <= view <= |r.got|
    ensures FreeSeen(r, view) == r.cap - (|r.sent| - view)
  {
    WrapDistance(|r.sent|, view);
  }

  lemma CheckOk(w: Writer, base: seq<Byte>, view: nat)
    requires Ok(w, base) && w.ph.Checking? && Do(w, Check(view)).Some?
    ensures Ok(Do(w, Check(view)).value, base)
  {
    FreeMeans(w.ring, view);
    var u := Do(w, Check(view)).value;
    if u.ph.Asking? {
      SeenMore(w.ring, view);
    }
  }

  lemma SeenMore(r: State, view: nat)
    requires Inv(r) && r.pSeen <= view <= |r.got|
    requires |r.sent| <= view + r.cap
    ensures Inv(r.(pSeen := view))
  {
  }

  /** With room seen before, a reservation never comes back empty, whatever the
      later view, and reaches to the end of the request or of the buffer. */
  lemma AskGets(r: State, want: nat, view: nat)
    requires Inv(r) && want > 0 && Room(r, want) && r.pSeen <= view <= |r.got|
    ensures var n := Min(want, r.cap - |r.sent| % r.cap);
      n > 0 && Step(r, Reserve(want, view)) == Some(r.(producer := Writing(n), pSeen := view))
  {
    ReserveMeans(|r.sent|, view, r.cap, want);
  }

  lemma AskOk(w: Writer, base: seq<Byte>, view: nat)
    requires Ok(w, base) && w.ph.Asking? && Do(w, Ask(view)).Some?
    ensures Ok(Do(w, Ask(view)).value, base)
  {
    AskGets(w.ring, |w.ph.rest|, view);
    ReserveStep(w.ring, |w.ph.rest|, view);
  }

  lemma CellsGrow(cells: seq<Byte>, off: nat, k: nat, rest: seq<Byte>)
    requires off + k < |cells| && k < |rest| && cells[off..off + k] == rest[..k]
    ensures cells[off + k := rest[k]][off..off + (k + 1)] == rest[..k + 1]
  {
    assert cells[off + k := rest[k]][off..off + (k + 1)] == cells[off..off + k] + [rest[k]];
    assert rest[..k + 1] == rest[..k] + [rest[k]];
  }

  lemma CopyStep(r: State, k: nat, b: Byte)
    requires Inv(r) && r.producer.Writing? && k < r.producer.n
    ensures var off := |r.sent| % r.cap;
      && off + k < |r.cells| && Step(r, Write(k, b)) == Some(r.(cells := r.cells[off + k := b]))
      && Inv(Step(r, Write(k, b)).value)
  {
    Offsets(r);
    WriteStep(r, k, b);
  }

  lemma CopyOk(w: Writer, base: seq<Byte>)
    requires Ok(w, base) && w.ph.Copying? && Do(w, Copy).Some?
    ensures Ok(Do(w, Copy).value, base)
  {
    CopyStep(w.ring, w.ph.k, w.ph.rest[w.ph.k]);
    CellsGrow(w.ring.cells, |w.ring.sent| % w.ring.cap, w.ph.k, w.ph.rest);
  }

  /** What the call still has to write. */
  function Left(w: Writer): seq<Byte> {
    match w.ph
    case Checking => w.data
    case Asking(rest, _) => rest
    case Copying(rest, _, _, _) => rest
    case _ => []
  }

  /** What a step of the writer leaves to the others. */
  ghost predicate Passes(w: Writer, u: Writer) {
    && u.ring.cap == w.ring.cap && u.ring.got == w.ring.got && u.ring.consumer == w.ring.consumer
    && w.ring.sent <= u.ring.sent && u.ring.sent + Left(u) == w.ring.sent + Left(w)
  }

  lemma PublishPasses(w: Writer, base: seq<Byte>)
    requires Ok(w, base) && w.ph.Copying? && Do(w, Publish).Some?
    ensures Passes(w, Do(w, Publish).value)
    ensures Left(Do(w, Publish).value) == w.ph.rest[w.ph.n..] && Do(w, Publish).value.ring.pSeen == w.ring.pSeen
    ensures Do(w, Publish).value.ph.Wrote? <==> w.ph.n == |w.ph.rest|
  {
    var rest, n, r := w.ph.rest, w.ph.n, w.ring;
    CommitSends(r, n);
    var u := Step(r, Commit(n)).value;
    assert u.sent == r.sent + rest[..n];
    assert rest == rest[..n] + rest[n..];
    assert u.sent + rest[n..] == r.sent + rest;
    assert n == |rest| ==> rest[n..] == [];
  }

  lemma PublishOk(w: Writer, base: seq<Byte>)
    requires Ok(w, base) && w.ph.Copying? && Do(w, Publish).Some?
    ensures Ok(Do(w, Publish).value, base)
  {
    var n, r := w.ph.n, w.ring;
    CommitStep(r, n);
    CommitSends(r, n);
    PublishPasses(w, base);
    if n < |w.ph.rest| {
      RunEnd(|r.sent|, n, r.cap);
    }
  }

  /** The consumer neither writes the buffer nor takes away room. */
  lemma ConsumerSees(r: State, c: Action)
    requires Inv(r) && (c.Peek? || c.Consume?) && Step(r, c).Some?
    ensures var u := Step(r, c).value;
      Inv(u) && u == r.(tail := u.tail, consumer := u.consumer, got := u.got, cSeen := u.cSeen)
  {
    StepKeeps(r, c);
  }

  lemma DoOk(w: Writer, base: seq<Byte>, a: Act)
    requires Ok(w, base)
    ensures Do(w, a).Some? ==> Ok(Do(w, a).value, base)
  {
    if Do(w, a).Some? {
      match a {
        case Check(view) => CheckOk(w, base, view);
        case Ask(view) => AskOk(w, base, view);
        case Copy => CopyOk(w, base);
        case Publish => PublishOk(w, base);
        case Consumer(c) => ConsumerSees(w.ring, c);
      }
    }
  }

  /** What the call keeps from its start on. */
  ghost predicate Sane(w: Writer, base: seq<Byte>, data: seq<Byte>) {
    Ok(w, base) && w.data == data
  }

  lemma DoSane(w: Writer, a: Act, base: seq<Byte>, data: seq<Byte>)
    requires Sane(w, base, data)
    ensures Do(w, a).Some? ==> Sane(Do(w, a).value, base, data)
  {
    DoOk(w, base, a);
  }

  /** In every interleaving the call is all or nothing: refused at its check, the
      stream is unchanged; let through, it never fails in its loop, and when it
      returns, after one or two rounds, the stream has grown by exactly the data. */
  lemma AllOrNothing(ring: State, data: seq<Byte>, acts: seq<Act>)
    requires Inv(ring) && Runs.Exec(Do, Writer(ring, data, Checking), acts).Some?
    ensures var w := Runs.Exec(Do, Writer(ring, data, Checking), acts).value;
      && w.ph != Failed && Inv(w.ring)
      && (w.ph.Refused? ==> w.ring.sent == ring.sent)
      && (w.ph.Wrote? ==> w.ring.sent == ring.sent + data && 1 <= w.ph.rounds <= 2)
  {
    var base := ring.sent;
    forall w, a | Sane(w, base, data)
      ensures Do(w, a).Some? ==> Sane(Do(w, a).value, base, data)
    {
      DoSane(w, a, base, data);
    }
    Runs.ExecInvariant(Do, (w: Writer) => Sane(w, base, data), Writer(ring, data, Checking), acts);
  }

  lemma CheckPasses(w: Writer, base: seq<Byte>, view: nat)
    requires Ok(w, base) && w.ph.Checking? && Do(w, Check(view)).Some?
    requires w.data != [] && Room(w.ring, |w.data|)
    ensures Do(w, Check(view)).value == w.(ring := w.ring.(pSeen := view), ph := Asking(w.data, 0)) && view >= w.ring.pSeen
  {
    FreeMeans(w.ring, view);
  }

  lemma AskPasses(w: Writer, base: seq<Byte>, view: nat)
    requires Ok(w, base) && w.ph.Asking? && Do(w, Ask(view)).Some?
    ensures var u := Do(w, Ask(view)).value; Passes(w, u) && Left(u) == Left(w) && u.ring.pSeen >= w.ring.pSeen
    ensures !Do(w, Ask(view)).value.ph.Wrote?
  {
    AskGets(w.ring, |w.ph.rest|, view);
  }

  lemma CopyPasses(w: Writer, base: seq<Byte>)
    requires Ok(w, base) && w.ph.Copying? && Do(w, Copy).Some?
    ensures var u := Do(w, Copy).value; Passes(w, u) && Left(u) == Left(w) && u.ring.pSeen == w.ring.pSeen && !u.ph.Wrote?
  {
    CopyStep(w.ring, w.ph.k, w.ph.rest[w.ph.k]);
  }

  /** With room seen for all that is left and k bytes more, a step of the writer is
      never refused, keeps that room, and ends the call iff nothing is left. */
  lemma WriterSteps(w: Writer, base: seq<Byte>, a: Act, k: nat)
    requires Ok(w, base) && !a.Consumer? && Do(w, a).Some? && Left(w) != [] && Room(w.ring, |Left(w)| + k)
    ensures var u := Do(w, a).value;
      && Ok(u, base) && u.data == w.data && Passes(w, u) && Room(u.ring, |Left(u)| + k)
      && !u.ph.Refused? && (u.ph.Wrote? <==> Left(u) == [])
  {
    DoOk(w, base, a);
    match a {
      case Check(view) => CheckPasses(w, base, view);
      case Ask(view) => AskPasses(w, base, view);
      case Copy => CopyPasses(w, base);
      case Publish => PublishPasses(w, base);
    }
  }

  // ----- a call comes to its end -----

  /** What the writer does next, reading the consumer's index as it is now. */
  function NextAct(w: Writer): Act {
    match w.ph
    case Checking => Check(|w.ring.got|)
    case Copying(_, n, k, _) => if k < n then Copy else Publish
    case _ => Ask(|w.ring.got|)
  }

  predicate InCall(w: Writer) {
    w.ph.Checking? || w.ph.Asking? || w.ph.Copying?
  }

  /** The writer never waits for the consumer: while it is in a call its next step
      is possible. */
  lemma WriterMoves(w: Writer, base: seq<Byte>)
    requires Ok(w, base) && InCall(w)
    ensures Do(w, NextAct(w)).Some?
  {
    match w.ph {
      case Checking =>
      case Asking(rest, _) => AskGets(w.ring, |rest|, |w.ring.got|);
      case Copying(rest, n, k, _) =>
        if k < n {
          CopyStep(w.ring, k, rest[k]);
        } else {
          CommitStep(w.ring, n);
        }
    }
  }

  /** Steps a call still needs at most. */
  function Todo(w: Writer): nat {
    match w.ph
    case Checking => 3 * |w.data| + 3
    case Asking(rest, _) => 3 * |rest| + 2
    case Copying(rest, _, k, _) => if k <= |rest| then 3 * |rest| + 1 - k else 1
    case _ => 0
  }

  lemma StepsTodo(w: Writer, base: seq<Byte>, a: Act)
    requires Ok(w, base) && InCall(w) && Do(w, a).Some?
    ensures Todo(Do(w, a).value) + (if a.Consumer? then 0 else 1) <= Todo(w)
    ensures !a.Consumer? || (InCall(Do(w, a).value) && Todo(Do(w, a).value) == Todo(w))
  {
    match a {
      case Ask(view) => AskGets(w.ring, |w.ph.rest|, view);
      case _ =>
    }
  }

  ghost function Calling(base: seq<Byte>): Writer -> bool {
    (w: Writer) => Ok(w, base) && InCall(w)
  }

  ghost function Returned(base: seq<Byte>): Writer -> bool {
    (w: Writer) => Ok(w, base) && !InCall(w)
  }

  ghost function OfWriter(): Act -> bool {
    (a: Act) => !a.Consumer?
  }

  lemma CallWorks(base: seq<Byte>)
    ensures Runs.Works(Do, Calling(base), Returned(base), Todo, OfWriter())
  {
    forall w, a | Calling(base)(w) && Do(w, a).Some?
      ensures var u := Do(w, a).value;
        && (Calling(base)(u) || Returned(base)(u))
        && Todo(u) + (if OfWriter()(a) then 1 else 0) <= Todo(w)
    {
      DoOk(w, base, a);
      StepsTodo(w, base, a);
    }
  }

  /** Whatever the consumer does in between, the call has returned after three steps
      per byte and three more, with all of the data written or none. */
  lemma CallReturns(ring: State, data: seq<Byte>, acts: seq<Act>) returns (n: nat)
    requires Inv(ring) && Runs.Exec(Do, Writer(ring, data, Checking), acts).Some?
    requires Runs.Count(OfWriter(), acts) >= 3 * |data| + 3
    ensures n <= |acts| && Runs.Exec(Do, Writer(ring, data, Checking), acts[..n]).Some?
    ensures Runs.Count(OfWriter(), acts[..n]) <= 3 * |data| + 3
    ensures var w := Runs.Exec(Do, Writer(ring, data, Checking), acts[..n]).value;
      (w.ph.Wrote? && w.ring.sent == ring.sent + data) || (w.ph.Refused? && w.ring.sent == ring.sent)
  {
    CallWorks(ring.sent);
    n := Runs.JobEnds(Do, Calling(ring.sent), Returned(ring.sent), Todo, OfWriter(), Writer(ring, data, Checking), acts);
    AllOrNothing(ring, data, acts[..n]);
  }

  /** The check lets a call through exactly when it has data and the room seen holds it. */
  lemma CheckExact(w: Writer, view: nat)
    requires Inv(w.ring) && w.ph.Checking? && w.ring.pSeen <= view <= |w.ring.got|
    ensures Do(w, Check(view)).Some?
    ensures Do(w, Check(view)).value.ph.Asking? <==> w.data != [] && |w.ring.sent| - view + |w.data| <= w.ring.cap
  {
    FreeMeans(w.ring, view);
  }
}
