/** The pipeline of `LogPipeline` down to single index loads, byte copies and index
    stores on the ring: a line and its newline are two calls of the log stream's
    writer, the consumer may step anywhere in between, and views may be late. */
module PipelineMachine {
  import opened Words
  import opened Wrappers
  import opened LogBus
  import SpscRing
  import opened StreamMachine
  import R = SpscMachine
  import P = LogPipeline
  import Runs

  /** The framer collects text, or is in its first or second call of the writer. */
  datatype Stage = Collecting | Line | Ending

  datatype Sys = Sys(
    w: Writer, stage: Stage, line: seq<Byte>, acc: seq<Byte>, tail: seq<Byte>, rows: seq<seq<Byte>>,
    text: seq<Byte>, published: seq<seq<Byte>>, dropped: nat)

  datatype Move =
    | Log(c: Byte, view: nat)
    | Write(a: Act)
    | Look(view: nat)
    | Draw  // handle what the look showed, and consume it

  function Newline(s: Sys, view: nat): Sys {
    var line := StripCR(s.acc);
    var u := s.(acc := [], text := s.text + [LF]);
    if line == [] then u
    else if FreeSeen(s.w.ring, view) < |line| + 1 then u.(dropped := s.dropped + 1)
    else u.(w := Writer(s.w.ring.(pSeen := view), line, Checking), stage := Line, line := line)
  }

  /** What the framer does when a call of the writer has returned. */
  function Returned(s: Sys): Sys {
    if s.w.ph.Wrote? then
      if s.stage == Line then s.(w := Writer(s.w.ring, [LF], Checking), stage := Ending)
      else s.(stage := Collecting, published := s.published + [s.line])
    else if s.w.ph.Refused? || s.w.ph.Failed? then s.(stage := Collecting, dropped := s.dropped + 1)
    else s
  }

  function Next(s: Sys, m: Move): Option<Sys> {
    match m
    case Log(c, view) =>
      if s.stage != Collecting || !(s.w.ring.pSeen <= view <= |s.w.ring.got|) then None
      else if c == LF then Some(Newline(s, view))
      else Some(s.(text := s.text + [c], acc := P.Collect(s.acc, c)))
    case Write(a) =>
      if s.stage == Collecting || a.Consumer? then None
      else
        (match Do(s.w, a)
         case None => None
         case Some(w) => Some(Returned(s.(w := w))))
    case Look(view) =>
      (match R.Step(s.w.ring, R.Peek(view))
       case None => None
       case Some(r) => Some(s.(w := s.w.(ring := r))))
    case Draw =>
      if !s.w.ring.consumer.Reading? then None
      else
        (match R.Step(s.w.ring, R.Consume(s.w.ring.consumer.n))
         case None => None
         case Some(r) =>
           var (tail, rows) := P.TakeAll(s.tail, s.rows, s.w.ring.consumer.shown);
           Some(s.(w := s.w.(ring := r), tail := tail, rows := rows)))
  }

  function Start(ring: R.State): Sys {
    Sys(Writer(ring, [], Refused), Collecting, [], [], [], [], [], [], 0)
  }

  /** A step is possible: of the framer, of the writer while a line goes out, and of
      the drain whenever something was shown to it. */
  ghost predicate Moves(s: Sys, c: Byte) {
    && (s.stage == Collecting ==> Next(s, Log(c, |s.w.ring.got|)).Some?)
    && (s.stage != Collecting ==> Next(s, Write(NextAct(s.w))).Some?)
    && Next(s, Look(|s.w.ring.sent|)).Some?
    && (s.w.ring.consumer.Reading? ==> Next(s, Draw).Some?)
  }

  // ----- what this is a run of -----

  /** The line under way, its newline included, and how much of it is in the stream. */
  function Progress(s: Sys): P.Writer {
    match s.stage
    case Collecting => P.Framing
    case Line => P.Putting(s.line + [LF], if |Left(s.w)| <= |s.line| then |s.line| - |Left(s.w)| else 0)
    case Ending => P.Putting(s.line + [LF], if |Left(s.w)| <= 1 then |s.line| + 1 - |Left(s.w)| else 0)
  }

  function Abs(s: Sys): P.State {
    P.State(s.w.ring.cap, s.acc, Progress(s), s.w.ring.sent, s.w.ring.got, s.tail, s.rows,
            s.text, if s.stage == Collecting then s.published else s.published + [s.line], s.dropped)
  }

  /** Something is left to write while a call is in progress. */
  predicate Sized(s: Sys) {
    match s.stage
    case Collecting => true
    case Line => 0 < |Left(s.w)| <= |s.line|
    case Ending => |Left(s.w)| == 1
  }

  /** The call in progress, and room for all that is still to be written. */
  ghost predicate Calling(s: Sys) {
    && Sized(s)
    && match s.stage
       case Collecting => true
       case Line =>
         Ok(s.w, Render(s.published)) && s.w.data == s.line && Room(s.w.ring, |Left(s.w)| + 1)
       case Ending =>
         Ok(s.w, Render(s.published) + s.line) && s.w.data == [LF] && Room(s.w.ring, |Left(s.w)|)
  }

  ghost predicate Inv(s: Sys) {
    R.Inv(s.w.ring) && P.Inv(Abs(s)) && Calling(s)
  }

  /** The step of `LogPipeline` that a move is. */
  function Meaning(s: Sys, m: Move): P.Act {
    match m
    case Log(c, view) => P.Log(c, view)
    case Write(a) =>
      P.Put(match Do(s.w, a)
            case Some(u) => if |u.ring.sent| >= |s.w.ring.sent| then |u.ring.sent| - |s.w.ring.sent| else 0
            case None => 0)
    case Look(view) => P.Look(0)
    case Draw => P.Look(if s.w.ring.consumer.Reading? then s.w.ring.consumer.n else 0)
  }

  ghost predicate Refines(s: Sys, m: Move, u: Sys) {
    R.Inv(u.w.ring) && Calling(u) && P.Step(Abs(s), Meaning(s, m)) == Some(Abs(u))
  }

  lemma LogRefines(s: Sys, c: Byte, view: nat)
    requires Inv(s) && Next(s, Log(c, view)).Some?
    ensures Refines(s, Log(c, view), Next(s, Log(c, view)).value)
  {
    if c == LF {
      NewlineRefines(s, view);
    }
  }

  lemma NewlineCalls(s: Sys, view: nat)
    requires R.Inv(s.w.ring) && s.stage == Collecting && s.w.ring.sent == Render(s.published)
    requires s.w.ring.pSeen <= view <= |s.w.ring.got|
    ensures R.Inv(Newline(s, view).w.ring) && Calling(Newline(s, view))
  {
    FreeMeans(s.w.ring, view);
    if Newline(s, view).stage == Line {
      SeenMore(s.w.ring, view);
    }
  }

  lemma NewlineMeans(s: Sys, view: nat)
    requires R.Inv(s.w.ring) && s.stage == Collecting && s.w.ring.pSeen <= view <= |s.w.ring.got|
    ensures P.Step(Abs(s), P.Log(LF, view)) == Some(Abs(Newline(s, view)))
  {
    FreeMeans(s.w.ring, view);
  }

  lemma NewlineRefines(s: Sys, view: nat)
    requires Inv(s) && s.stage == Collecting && s.w.ring.pSeen <= view <= |s.w.ring.got|
    ensures Refines(s, Log(LF, view), Newline(s, view))
  {
    NewlineCalls(s, view);
    NewlineMeans(s, view);
  }

  lemma Cancel(s: seq<Byte>, x: seq<Byte>, y: seq<Byte>)
    requires s + x == s + y
    ensures x == y
  {
    assert (s + x)[|s|..] == x && (s + y)[|s|..] == y;
  }

  /** What was written on is the first part of what was left. */
  lemma WroteOn(sent: seq<Byte>, left: seq<Byte>, sent': seq<Byte>, left': seq<Byte>)
    requires sent <= sent' && sent' + left' == sent + left
    ensures var n := |sent'| - |sent|;
      n <= |left| && sent' == sent + left[..n] && left' == left[n..]
  {
    var n := |sent'| - |sent|;
    assert |sent' + left'| == |sent + left|;
    assert sent' == (sent' + left')[..|sent'|] == (sent + left)[..|sent'|] == sent + left[..n];
    assert left' == (sent' + left')[|sent'|..] == (sent + left)[|sent'|..] == left[n..];
  }

  /** What the stream will hold when the framer is back at collecting. */
  function Rest(s: Sys): seq<Byte> {
    match s.stage
    case Collecting => []
    case Line => Left(s.w) + [LF]
    case Ending => Left(s.w)
  }

  lemma CallLeft(w: Writer, base: seq<Byte>)
    requires Ok(w, base) && Left(w) != []
    ensures w.ring.sent + Left(w) == base + w.data
  {
  }

  lemma RenderNext(lines: seq<seq<Byte>>, line: seq<Byte>)
    ensures Render(lines + [line]) == Render(lines) + line + [LF]
  {
    assert (lines + [line])[..|lines|] == lines;
  }

  /** What was sent and what remains make up the lines, the one under way included. */
  lemma RestCompletes(s: Sys)
    requires Calling(s) && s.stage != Collecting
    ensures s.w.ring.sent + Rest(s) == Render(s.published + [s.line])
  {
    RenderNext(s.published, s.line);
    if s.stage == Line {
      CallLeft(s.w, Render(s.published));
      OneMore(s.w.ring.sent, Left(s.w), Render(s.published), s.line);
      assert Render(s.published) + (s.line + [LF]) == Render(s.published) + s.line + [LF];
    } else {
      CallLeft(s.w, Render(s.published) + s.line);
    }
  }

  /** So what remains is the end of the line with its newline. */
  lemma RestIs(s: Sys)
    requires Inv(s) && s.stage != Collecting
    ensures Progress(s).Putting? && Progress(s).put <= |s.line| && Progress(s).whole == s.line + [LF]
    ensures Progress(s).whole[Progress(s).put..] == Rest(s)
  {
    RestCompletes(s);
    Cancel(s.w.ring.sent, Progress(s).whole[Progress(s).put..], Rest(s));
  }

  lemma OneMore(a: seq<Byte>, b: seq<Byte>, c: seq<Byte>, d: seq<Byte>)
    requires a + b == c + d
    ensures a + (b + [LF]) == c + (d + [LF])
  {
    assert a + (b + [LF]) == (a + b) + [LF];
    assert c + (d + [LF]) == (c + d) + [LF];
  }

  /** One step of the writer, seen from the call it belongs to. */
  lemma LineStep(s: Sys, a: Act)
    requires Calling(s) && s.stage == Line && Next(s, Write(a)).Some?
    ensures var u := Next(s, Write(a)).value;
      && R.Inv(u.w.ring) && Calling(u) && u.stage != Collecting && Passed(s, u)
  {
    WriterSteps(s.w, Render(s.published), a, 1);
    var v := Do(s.w, a).value;
    OneMore(v.ring.sent, Left(v), s.w.ring.sent, Left(s.w));
    if v.ph.Wrote? {
      assert Left(v) + [LF] == [LF];
    }
  }

  lemma EndingStep(s: Sys, a: Act)
    requires Calling(s) && s.stage == Ending && Next(s, Write(a)).Some?
    ensures var u := Next(s, Write(a)).value;
      && R.Inv(u.w.ring) && Calling(u) && u.stage != Line && Passed(s, u)
  {
    WriterSteps(s.w, Render(s.published) + s.line, a, 0);
  }

  ghost predicate Passed(s: Sys, u: Sys) {
    && u == s.(w := u.w, stage := u.stage, published := u.published)
    && u.w.ring.cap == s.w.ring.cap && u.w.ring.got == s.w.ring.got
    && s.w.ring.sent <= u.w.ring.sent && u.w.ring.sent + Rest(u) == s.w.ring.sent + Rest(s)
    && u.published == if u.stage == Collecting then s.published + [s.line] else s.published
  }

  /** n bytes of what remained were written. */
  ghost predicate Written(s: Sys, u: Sys, n: nat) {
    && u == s.(w := u.w, stage := u.stage, published := u.published)
    && u.w.ring.cap == s.w.ring.cap && u.w.ring.got == s.w.ring.got
    && n <= |Rest(s)| && u.w.ring.sent == s.w.ring.sent + Rest(s)[..n] && |Rest(u)| == |Rest(s)| - n
    && u.published == if u.stage == Collecting then s.published + [s.line] else s.published
  }

  lemma PassedOn(s: Sys, u: Sys)
    requires Passed(s, u)
    ensures Written(s, u, |u.w.ring.sent| - |s.w.ring.sent|)
  {
    WroteOn(s.w.ring.sent, Rest(s), u.w.ring.sent, Rest(u));
  }

  /** How far the line has come follows from how much of it remains. */
  lemma ProgressMoves(s: Sys, u: Sys, n: nat)
    requires s.stage != Collecting && Sized(u) && u.line == s.line && n <= |Rest(s)| && |Rest(u)| == |Rest(s)| - n
    requires s.stage == Ending ==> u.stage != Line
    requires Progress(s).put < |s.line| + 1 && |Rest(s)| == |s.line| + 1 - Progress(s).put
    ensures Progress(u) == if Progress(s).put + n == |s.line| + 1 then P.Framing else P.Putting(s.line + [LF], Progress(s).put + n)
  {
  }

  lemma WriteStep(s: Sys, a: Act) returns (u: Sys, n: nat)
    requires Calling(s) && Next(s, Write(a)).Some?
    ensures Next(s, Write(a)) == Some(u) && R.Inv(u.w.ring) && Calling(u) && Written(s, u, n)
    ensures s.stage != Collecting && (s.stage == Ending ==> u.stage != Line) && Meaning(s, Write(a)) == P.Put(n)
  {
    u := CallStep(s, a);
    n := |u.w.ring.sent| - |s.w.ring.sent|;
    PassedOn(s, u);
    MeaningIs(s, a, u, n);
  }

  lemma MeaningIs(s: Sys, a: Act, u: Sys, n: nat)
    requires Next(s, Write(a)) == Some(u) && |u.w.ring.sent| == |s.w.ring.sent| + n
    ensures Meaning(s, Write(a)) == P.Put(n)
  {
  }

  lemma CallStep(s: Sys, a: Act) returns (u: Sys)
    requires Calling(s) && Next(s, Write(a)).Some?
    ensures Next(s, Write(a)) == Some(u) && R.Inv(u.w.ring) && Calling(u) && Passed(s, u)
    ensures s.stage != Collecting && (s.stage == Ending ==> u.stage != Line)
  {
    u := Next(s, Write(a)).value;
    if s.stage == Line {
      LineStep(s, a);
    } else {
      EndingStep(s, a);
    }
  }

  /** So the bytes written are the next ones of the line with its newline. */
  lemma NextBytes(s: Sys, u: Sys, n: nat)
    requires Inv(s) && s.stage != Collecting && Written(s, u, n)
    ensures var put := |s.line| + 1 - |Rest(s)|;
      && 0 <= put && Progress(s) == P.Putting(s.line + [LF], put) && put + n <= |s.line| + 1
      && u.w.ring.sent == s.w.ring.sent + (s.line + [LF])[put..put + n]
  {
    RestIs(s);
    var whole, put := Progress(s).whole, Progress(s).put;
    assert whole[put..][..n] == whole[put..put + n];
  }

  lemma AbsMoves(s: Sys, u: Sys, n: nat)
    requires s.stage != Collecting && Written(s, u, n)
    ensures Abs(u) == Abs(s).(sent := u.w.ring.sent, writer := Progress(u))
  {
  }

  /** With these bytes sent, the pipeline has taken a step of its own. */
  lemma PutMeans(s: Sys, u: Sys, put: nat, n: nat)
    requires Progress(s) == P.Putting(s.line + [LF], put) && put + n <= |s.line| + 1
    requires u.w.ring.sent == s.w.ring.sent + (s.line + [LF])[put..put + n]
    requires Progress(u) == if put + n == |s.line| + 1 then P.Framing else P.Putting(s.line + [LF], put + n)
    requires Abs(u) == Abs(s).(sent := u.w.ring.sent, writer := Progress(u))
    ensures P.Step(Abs(s), P.Put(n)) == Some(Abs(u))
  {
    PutStep(Abs(s), s.line + [LF], put, n);
  }

  lemma PutStep(p: P.State, whole: seq<Byte>, put: nat, n: nat)
    requires p.writer == P.Putting(whole, put) && put + n <= |whole|
    ensures P.Step(p, P.Put(n)) == Some(p.(sent := p.sent + whole[put..put + n],
              writer := if put + n == |whole| then P.Framing else P.Putting(whole, put + n)))
  {
  }

  lemma PutRefines(s: Sys, u: Sys, n: nat)
    requires Inv(s) && s.stage != Collecting && Written(s, u, n) && Sized(u) && (s.stage == Ending ==> u.stage != Line)
    ensures P.Step(Abs(s), P.Put(n)) == Some(Abs(u))
  {
    NextBytes(s, u, n);
    ProgressMoves(s, u, n);
    AbsMoves(s, u, n);
    PutMeans(s, u, |s.line| + 1 - |Rest(s)|, n);
  }

  lemma WriteRefines(s: Sys, a: Act)
    requires Inv(s) && Next(s, Write(a)).Some?
    ensures Refines(s, Write(a), Next(s, Write(a)).value)
  {
    var u, n := WriteStep(s, a);
    PutRefines(s, u, n);
  }

  /** A step of the consumer leaves a call in progress as it is. */
  lemma CallGoesOn(s: Sys, c: R.Action, u: Sys)
    requires R.Inv(s.w.ring) && Calling(s) && (c.Peek? || c.Consume?) && R.Step(s.w.ring, c).Some?
    requires u == s.(w := s.w.(ring := R.Step(s.w.ring, c).value), tail := u.tail, rows := u.rows)
    ensures R.Inv(u.w.ring) && Calling(u) && Progress(u) == Progress(s)
  {
    ConsumerSees(s.w.ring, c);
    match s.stage {
      case Collecting =>
      case Line => OkGoesOn(s.w, Render(s.published), c);
      case Ending => OkGoesOn(s.w, Render(s.published) + s.line, c);
    }
  }

  lemma OkGoesOn(w: Writer, base: seq<Byte>, c: R.Action)
    requires Ok(w, base) && (c.Peek? || c.Consume?) && R.Step(w.ring, c).Some?
    ensures Ok(w.(ring := R.Step(w.ring, c).value), base)
  {
    assert Do(w, Consumer(c)) == Some(w.(ring := R.Step(w.ring, c).value));
    DoOk(w, base, Consumer(c));
  }

  lemma LookRefines(s: Sys, view: nat)
    requires Inv(s) && Next(s, Look(view)).Some?
    ensures Refines(s, Look(view), Next(s, Look(view)).value)
  {
    var u := Next(s, Look(view)).value;
    CallGoesOn(s, R.Peek(view), u);
    R.PeekShows(s.w.ring, view);
    LookMeans(Abs(s), 0);
    assert s.w.ring.got + [] == s.w.ring.got;
  }

  lemma Shown(r: R.State)
    requires R.Inv(r) && r.consumer.Reading?
    ensures r.got <= r.sent && |r.got| + r.consumer.n <= |r.sent|
    ensures r.consumer.shown == r.sent[|r.got|..|r.got| + r.consumer.n]
    ensures R.Step(r, R.Consume(r.consumer.n)).Some?
    ensures var u := R.Step(r, R.Consume(r.consumer.n)).value;
      u.cap == r.cap && u.sent == r.sent && u.got == r.sent[..|r.got| + r.consumer.n]
  {
    R.ConsumeGets(r, r.consumer.n);
  }

  lemma DrawRefines(s: Sys)
    requires Inv(s) && Next(s, Draw).Some?
    ensures Refines(s, Draw, Next(s, Draw).value)
  {
    CallGoesOn(s, R.Consume(s.w.ring.consumer.n), Next(s, Draw).value);
    DrawMeans(s);
  }

  lemma DrawMeans(s: Sys)
    requires R.Inv(s.w.ring) && Next(s, Draw).Some? && Progress(Next(s, Draw).value) == Progress(s)
    ensures P.Step(Abs(s), Meaning(s, Draw)) == Some(Abs(Next(s, Draw).value))
  {
    Shown(s.w.ring);
    LookMeans(Abs(s), s.w.ring.consumer.n);
  }

  lemma LookMeans(p: P.State, n: nat)
    requires p.got <= p.sent && |p.got| + n <= |p.sent|
    ensures var shown := p.sent[|p.got|..|p.got| + n]; var (tail, rows) := P.TakeAll(p.tail, p.rows, shown);
      && P.Step(p, P.Look(n)) == Some(p.(got := p.got + shown, tail := tail, rows := rows))
      && p.got + shown == p.sent[..|p.got| + n] && (n == 0 ==> shown == [])
  {
  }

  /** Every move at index level is a step of the pipeline. */
  lemma MoveRefines(s: Sys, m: Move)
    requires Inv(s) && Next(s, m).Some?
    ensures Refines(s, m, Next(s, m).value) && Inv(Next(s, m).value)
  {
    match m {
      case Log(c, view) => LogRefines(s, c, view);
      case Write(a) => WriteRefines(s, a);
      case Look(view) => LookRefines(s, view);
      case Draw => DrawRefines(s);
    }
    P.StepKeeps(Abs(s), Meaning(s, m));
  }

  ghost function Always(): Sys -> bool {
    (s: Sys) => Inv(s)
  }

  lemma NextPreserves()
    ensures Runs.Preserves(Next, Always())
  {
    forall s, m | Always()(s) && Next(s, m).Some?
      ensures Always()(Next(s, m).value)
    {
      MoveRefines(s, m);
    }
  }

  /** What the invariant says of the stream and the line under way. */
  ghost predicate Whole(s: Sys) {
    && (s.stage == Collecting ==> s.w.ring.sent == Render(s.published))
    && (s.stage != Collecting ==>
          && s.w.ring.sent + Rest(s) == Render(s.published) + s.line + [LF]
          && |Rest(s)| <= |s.line| + 1 && !s.w.ph.Refused? && !s.w.ph.Failed?)
  }

  lemma WholeSoFar(s: Sys)
    requires Inv(s)
    ensures P.Arrived(Abs(s)) && Whole(s)
  {
    P.ArrivedSoFar(Abs(s));
    if s.stage != Collecting {
      RestCompletes(s);
      RenderNext(s.published, s.line);
    }
  }

  lemma NeverStuck(s: Sys, c: Byte)
    requires Inv(s)
    ensures Moves(s, c)
  {
    R.PeekShows(s.w.ring, |s.w.ring.sent|);
    match s.stage {
      case Collecting =>
      case Line => WriterMoves(s.w, Render(s.published));
      case Ending => WriterMoves(s.w, Render(s.published) + s.line);
    }
    if s.w.ring.consumer.Reading? {
      Shown(s.w.ring);
    }
  }

  lemma StartInv(ring: R.State)
    requires R.Inv(ring) && ring.sent == [] && ring.got == []
    ensures Inv(Start(ring))
  {
  }

  /** On the ring as it is, with the consumer between any two of its accesses and
      views as late as they may be: once the check of a line has passed, neither of
      the two writes is refused or fails, and what the stream lacks is the end of
      that line; between lines it holds just the published lines, each with its
      newline. The rows drawn are those of the published lines, in order. And at
      every point each side has a step to take. */
  lemma LinesArriveOnRing(cap: SpscRing.Cap, cells: seq<Byte>, moves: seq<Move>)
    requires R.WellSized(cap, cells) && Runs.Exec(Next, Start(R.Init(cap, cells)), moves).Some?
    ensures var s := Runs.Exec(Next, Start(R.Init(cap, cells)), moves).value;
      P.Arrived(Abs(s)) && Whole(s) && forall c: Byte :: Moves(s, c)
  {
    StartInv(R.Init(cap, cells));
    NextPreserves();
    Runs.ExecInvariant(Next, Always(), Start(R.Init(cap, cells)), moves);
    var s := Runs.Exec(Next, Start(R.Init(cap, cells)), moves).value;
    WholeSoFar(s);
    forall c: Byte
      ensures Moves(s, c)
    {
      NeverStuck(s, c);
    }
  }
}
