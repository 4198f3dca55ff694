/** Every interleaving of one producer and one consumer on the ring, each step
    reading the other side's index through a possibly stale (but never
    receding) view. */
module SpscMachine {
  import opened Words
  import opened Wrappers
  import opened SpscRing
  import Runs

  datatype Producer = Ready | Writing(n: nat)
  datatype Consumer = Waiting | Reading(n: nat, shown: seq<Byte>)

  /** `head` and `tail` are the shared 32-bit words; `sent` and `got` record the
      history; `pSeen` (`cSeen`) is the newest consumed (committed) total whose
      index the producer (consumer) has loaded. */
  datatype State = State(
    cap: Cap, cells: seq<Byte>, head: U32, tail: U32,
    producer: Producer, consumer: Consumer,
    sent: seq<Byte>, got: seq<Byte>, pSeen: nat, cSeen: nat)

  datatype Action =
    | Reserve(want: nat, view: nat)
    | Write(k: nat, b: Byte)
    | Commit(n: nat)
    | Peek(view: nat)
    | Consume(n: nat)

  ghost predicate WellSized(cap: Cap, cells: seq<Byte>) {
    cap >= 2 && IsPow2(cap) && |cells| == cap
  }

  function Init(cap: Cap, cells: seq<Byte>): State {
    State(cap, cells, 0, 0, Ready, Waiting, [], [], 0, 0)
  }

  /** One call of the ring's interface, or None where its contract forbids it. */
  function Step(s: State, a: Action): Option<State>
  {
    match a
    case Reserve(want, view) =>
      if s.pSeen <= view <= |s.got| then
        var n := ReserveLen(s.head, view % U32_MOD, s.cap, want);
        Some(s.(producer := if n == 0 then Ready else Writing(n), pSeen := view))
      else None
    case Write(k, b) =>
      var off := And(s.head, s.cap - 1);
      if s.producer.Writing? && k < s.producer.n && off + k < |s.cells| then
        Some(s.(cells := s.cells[off + k := b]))
      else None
    case Commit(n) =>
      var off := And(s.head, s.cap - 1);
      if s.producer.Writing? && n <= s.producer.n && off + n <= |s.cells| then
        Some(s.(producer := Ready, head := Add32(s.head, n), sent := s.sent + s.cells[off..off + n]))
      else None
    case Peek(view) =>
      if s.cSeen <= view <= |s.sent| then
        var n := PeekLen(view % U32_MOD, s.tail, s.cap);
        var off := And(s.tail, s.cap - 1);
        if n == 0 || off + n > |s.cells| then Some(s.(consumer := Waiting, cSeen := view))
        else Some(s.(consumer := Reading(n, s.cells[off..off + n]), cSeen := view))
      else None
    case Consume(n) =>
      var off := And(s.tail, s.cap - 1);
      if s.consumer.Reading? && n <= s.consumer.n && off + n <= |s.cells| then
        Some(s.(consumer := Waiting, tail := Add32(s.tail, n), got := s.got + s.cells[off..off + n]))
      else None
  }

  ghost predicate Inv(s: State) {
    && WellSized(s.cap, s.cells)
    && Backed(s.cells, s.sent, s.got)
    && s.head == |s.sent| % U32_MOD
    && s.tail == |s.got| % U32_MOD
    && s.pSeen <= |s.got| <= s.cSeen <= |s.sent| <= s.pSeen + s.cap
    && (s.producer.Writing? ==>
      |s.sent| + s.producer.n <= s.pSeen + s.cap && |s.sent| % s.cap + s.producer.n <= s.cap)
    && (s.consumer.Reading? ==>
      && |s.got| + s.consumer.n <= s.cSeen
      && |s.got| % s.cap + s.consumer.n <= s.cap
      && s.consumer.shown == s.sent[|s.got|..|s.got| + s.consumer.n])
  }

  lemma Offsets(s: State)
    requires Inv(s)
    ensures And(s.head, s.cap - 1) == |s.sent| % s.cap
    ensures And(s.tail, s.cap - 1) == |s.got| % s.cap
  {
    WrapOffset(|s.sent|, s.cap);
    WrapOffset(|s.got|, s.cap);
  }

  lemma ReserveStep(s: State, want: nat, view: nat)
    requires Inv(s) && s.pSeen <= view <= |s.got|
    ensures Inv(Step(s, Reserve(want, view)).value)
  {
    ReserveMeans(|s.sent|, view, s.cap, want);
  }

  lemma WriteStep(s: State, k: nat, b: Byte)
    requires Inv(s) && s.producer.Writing? && k < s.producer.n
    ensures Step(s, Write(k, b)).Some? && Inv(Step(s, Write(k, b)).value)
  {
    Offsets(s);
    WriteKeeps(s.cells, s.sent, s.got, k, b);
  }

  lemma CommitSends(s: State, n: nat)
    requires Inv(s) && s.producer.Writing? && n <= s.producer.n
    ensures var off := |s.sent| % s.cap;
      Step(s, Commit(n)) == Some(s.(producer := Ready,
        head := (|s.sent| + n) % U32_MOD, sent := s.sent + s.cells[off..off + n]))
  {
    Offsets(s);
    AddWrap(|s.sent|, n);
  }

  lemma CommitStep(s: State, n: nat)
    requires Inv(s) && s.producer.Writing? && n <= s.producer.n
    ensures Step(s, Commit(n)).Some? && Inv(Step(s, Commit(n)).value)
  {
    CommitSends(s, n);
    CommitKeeps(s.cells, s.sent, s.got, n);
  }

  function Shown(s: State, view: nat): (n: nat)
    requires view >= |s.got|
  {
    Min(view - |s.got|, s.cap - |s.got| % s.cap)
  }

  lemma PeekLength(s: State, view: nat)
    requires Inv(s) && s.cSeen <= view <= |s.sent|
    ensures PeekLen(view % U32_MOD, s.tail, s.cap) == Shown(s, view)
    ensures And(s.tail, s.cap - 1) == |s.got| % s.cap && |s.got| % s.cap + Shown(s, view) <= s.cap
  {
    PeekMeans(view, |s.got|, s.cap);
    WrapOffset(|s.got|, s.cap);
  }

  lemma PeekShows(s: State, view: nat)
    requires Inv(s) && s.cSeen <= view <= |s.sent|
    ensures Step(s, Peek(view)) == Some(s.(cSeen := view, consumer :=
      if Shown(s, view) == 0 then Waiting
      else Reading(Shown(s, view), s.sent[|s.got|..|s.got| + Shown(s, view)])))
  {
    PeekReads(s, view);
    ReadMeans(s.cells, s.sent, s.got, Shown(s, view));
  }

  lemma PeekReads(s: State, view: nat)
    requires Inv(s) && s.cSeen <= view <= |s.sent|
    ensures var off, n := |s.got| % s.cap, Shown(s, view);
      && off + n <= |s.cells| && |s.got| + n <= |s.sent|
      && Step(s, Peek(view)) == Some(s.(cSeen := view, consumer := if n == 0 then Waiting else Reading(n, s.cells[off..off + n])))
  {
    PeekLength(s, view);
  }

  lemma PeekStep(s: State, view: nat)
    requires Inv(s) && s.cSeen <= view <= |s.sent|
    ensures Inv(Step(s, Peek(view)).value)
  {
    PeekShows(s, view);
  }

  lemma ConsumeGets(s: State, n: nat)
    requires Inv(s) && s.consumer.Reading? && n <= s.consumer.n
    ensures Step(s, Consume(n)) == Some(s.(consumer := Waiting,
        tail := (|s.got| + n) % U32_MOD, got := s.sent[..|s.got| + n]))
  {
    ConsumeTakes(s, n);
    ReadMeans(s.cells, s.sent, s.got, n);
  }

  lemma ConsumeTakes(s: State, n: nat)
    requires Inv(s) && s.consumer.Reading? && n <= s.consumer.n
    ensures var off := |s.got| % s.cap;
      && off + n <= |s.cells|
      && Step(s, Consume(n)) == Some(s.(consumer := Waiting,
           tail := (|s.got| + n) % U32_MOD, got := s.got + s.cells[off..off + n]))
  {
    Offsets(s);
    AddWrap(|s.got|, n);
  }

  lemma ConsumeStep(s: State, n: nat)
    requires Inv(s) && s.consumer.Reading? && n <= s.consumer.n
    ensures Step(s, Consume(n)).Some? && Inv(Step(s, Consume(n)).value)
  {
    ConsumeGets(s, n);
    ReadMeans(s.cells, s.sent, s.got, n);
  }

  /** u is a sound state whose streams continue those of s. */
  ghost predicate Grows(s: State, u: State) {
    Inv(u) && u.cap == s.cap && s.sent <= u.sent && s.got <= u.got
  }

  lemma StepKeeps(s: State, a: Action)
    requires Inv(s)
    ensures Step(s, a).Some? ==> Grows(s, Step(s, a).value)
  {
    if Step(s, a).Some? {
      match a {
        case Reserve(want, view) => ReserveStep(s, want, view);
        case Write(k, b) => WriteStep(s, k, b);
        case Commit(n) => CommitStep(s, n);
        case Peek(view) => PeekStep(s, view);
        case Consume(n) => ConsumeStep(s, n);
      }
    }
  }

  lemma RunKeeps(s: State, acts: seq<Action>)
    requires Inv(s) && Runs.Exec(Step, s, acts).Some?
    ensures Grows(s, Runs.Exec(Step, s, acts).value)
  {
    forall x, a | Grows(s, x)
      ensures Step(x, a).Some? ==> Grows(s, Step(x, a).value)
    {
      StepKeeps(x, a);
    }
    Runs.ExecInvariant(Step, (x: State) => Grows(s, x), s, acts);
  }

  /** In every reachable state: what was consumed is a prefix of what was
      committed, the indices measure exactly the unread bytes and never more
      than the capacity, no cell granted to the producer holds an unread byte,
      and what the consumer was shown is still in the cells. */
  lemma RingIsSafe(cap: Cap, cells: seq<Byte>, acts: seq<Action>, s: State)
    requires WellSized(cap, cells) && Runs.Exec(Step, Init(cap, cells), acts) == Some(s)
    ensures s.got <= s.sent
    ensures UsedOf(s.head, s.tail) == |s.sent| - |s.got| <= cap
    ensures s.producer.Writing? ==>
      forall j :: |s.got| <= j < |s.sent| ==>
        j % cap < |s.sent| % cap || |s.sent| % cap + s.producer.n <= j % cap
    ensures s.consumer.Reading? ==>
      && |s.got| % cap + s.consumer.n <= |s.cells|
      && s.cells[|s.got| % cap..|s.got| % cap + s.consumer.n] == s.consumer.shown
      && s.got + s.consumer.shown <= s.sent
  {
    assert Inv(Init(cap, cells));
    RunKeeps(Init(cap, cells), acts);
    WrapDistance(|s.sent|, |s.got|);
    if s.producer.Writing? {
      forall j | |s.got| <= j < |s.sent|
        ensures j % cap < |s.sent| % cap || |s.sent| % cap + s.producer.n <= j % cap
      {
        if |s.sent| % cap <= j % cap < |s.sent| % cap + s.producer.n {
          FreeCell(cap, |s.sent|, |s.got|, j % cap - |s.sent| % cap, j);
        }
      }
    }
    if s.consumer.Reading? {
      ReadMeans(s.cells, s.sent, s.got, s.consumer.n);
    }
  }

  /** Neither side is refused for nothing: with an up-to-date view the consumer is
      shown bytes exactly when the ring is not empty, and the producer is granted
      space exactly when it asked for some and the ring is not full. */
  lemma NoFalseRefusal(cap: Cap, cells: seq<Byte>, acts: seq<Action>, s: State, want: nat)
    requires WellSized(cap, cells) && Runs.Exec(Step, Init(cap, cells), acts) == Some(s)
    ensures Step(s, Peek(|s.sent|)).Some? && Step(s, Reserve(want, |s.got|)).Some?
    ensures Step(s, Peek(|s.sent|)).value.consumer.Reading? <==> s.got != s.sent
    ensures Step(s, Reserve(want, |s.got|)).value.producer.Writing?
        <==> want > 0 && |s.sent| - |s.got| < cap
  {
    assert Inv(Init(cap, cells));
    RunKeeps(Init(cap, cells), acts);
    PeekShows(s, |s.sent|);
    ReserveMeans(|s.sent|, |s.got|, cap, want);
  }
}
