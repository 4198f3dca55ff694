/** The framer and the drain on one stream, in every interleaving: the framer
    writes a line in pieces, and the drain may look between any two of them.
    `PipelineMachine` shows that the ring's index accesses refine these steps. */
module LogPipeline {
  import opened Words
  import opened Wrappers
  import opened LogBus
  import opened LogDrain
  import Runs

  /** The framer collects text, or is writing a line with its newline. */
  datatype Writer = Framing | Putting(whole: seq<Byte>, put: nat)

  /** `acc` is the accumulator, `tail` the drain's last characters, `rows` the rows
      drawn; `text`, `published` and `dropped` record the history, the line being
      written included. */
  datatype State = State(
    cap: nat, acc: seq<Byte>, writer: Writer, sent: seq<Byte>, got: seq<Byte>,
    tail: seq<Byte>, rows: seq<seq<Byte>>,
    text: seq<Byte>, published: seq<seq<Byte>>, dropped: nat)

  datatype Act =
    | Log(c: Byte, seen: nat)  // seen: how far the framer has seen the drain come
    | Put(n: nat)
    | Look(n: nat)

  /** The drain's reaction to one byte: its tail and rows. */
  function Take(tail: seq<Byte>, rows: seq<seq<Byte>>, c: Byte): (seq<Byte>, seq<seq<Byte>>) {
    if c == LF then ([], rows + [Pad(tail)])
    else if c == CR then (tail, rows)
    else if |tail| < COLS then (tail + [c], rows)
    else (tail[1..] + [c], rows)
  }

  function TakeAll(tail: seq<Byte>, rows: seq<seq<Byte>>, bytes: seq<Byte>): (seq<Byte>, seq<seq<Byte>>) {
    if bytes == [] then (tail, rows)
    else
      var (t, r) := TakeAll(tail, rows, bytes[..|bytes| - 1]);
      Take(t, r, bytes[|bytes| - 1])
  }

  /** The accumulator after one more character; the oldest goes when it is full. */
  function Collect(acc: seq<Byte>, c: Byte): seq<Byte> {
    if |acc| < ACC_CAP then acc + [c] else acc[1..] + [c]
  }

  /** A newline: write the line if the room seen holds it whole, else drop it. */
  function Newline(s: State, seen: nat): State {
    var line := StripCR(s.acc);
    var u := s.(acc := [], text := s.text + [LF]);
    if line == [] then u
    else if |s.sent| - seen + |line| + 1 <= s.cap then
      u.(writer := Putting(line + [LF], 0), published := s.published + [line])
    else u.(dropped := s.dropped + 1)
  }

  function Step(s: State, a: Act): Option<State> {
    match a
    case Log(c, seen) =>
      if !s.writer.Framing? || seen > |s.got| then None
      else if c == LF then Some(Newline(s, seen))
      else Some(s.(text := s.text + [c], acc := Collect(s.acc, c)))
    case Put(n) =>
      if s.writer.Framing? || s.writer.put + n > |s.writer.whole| then None
      else
        var put := s.writer.put + n;
        Some(s.(sent := s.sent + s.writer.whole[s.writer.put..put],
                writer := if put == |s.writer.whole| then Framing else s.writer.(put := put)))
    case Look(n) =>
      if |s.got| + n > |s.sent| then None
      else
        var shown := s.sent[|s.got|..|s.got| + n];
        var (tail, rows) := TakeAll(s.tail, s.rows, shown);
        Some(s.(got := s.got + shown, tail := tail, rows := rows))
  }

  /** What the stream will hold once the line being written is complete. */
  function Promised(s: State): seq<Byte> {
    if s.writer.Framing? || s.writer.put > |s.writer.whole| then s.sent else s.sent + s.writer.whole[s.writer.put..]
  }

  ghost predicate Inv(s: State) {
    && Accounts(s.text, s.published, s.dropped)
    && s.acc == LastN(Open(s.text), ACC_CAP)
    && (s.writer.Putting? ==> s.writer.put < |s.writer.whole|)
    && Promised(s) == Render(s.published)
    && s.got <= s.sent && |Promised(s)| - |s.got| <= s.cap
    && (s.tail, s.rows) == TakeAll([], [], s.got)
  }

  /** Looking twice is looking once at both parts. */
  lemma {:induction false} TakeMore(tail: seq<Byte>, rows: seq<seq<Byte>>, a: seq<Byte>, b: seq<Byte>)
    ensures TakeAll(tail, rows, a + b) == TakeAll(TakeAll(tail, rows, a).0, TakeAll(tail, rows, a).1, b)
    decreases |b|
  {
    if b == [] {
      assert a + b == a;
    } else {
      assert (a + b)[..|a + b| - 1] == a + b[..|b| - 1];
      TakeMore(tail, rows, a, b[..|b| - 1]);
    }
  }

  lemma TakeNext(got: seq<Byte>, c: Byte)
    ensures Take(Tail(Open(got)), Rows(got), c) == (Tail(Open(got + [c])), Rows(got + [c]))
  {
    OpenNext(got, c);
    TailNext(Open(got), c);
    assert Tail([]) == [];
    assert c != LF ==> Rows(got) + [] == Rows(got);
  }

  /** Byte by byte the drain computes the tail and the rows of the whole. */
  lemma {:induction false} TakeMeans(got: seq<Byte>)
    ensures TakeAll([], [], got) == (Tail(Open(got)), Rows(got))
  {
    if got == [] {
      assert Tail([]) == [];
    } else {
      var init, c := got[..|got| - 1], got[|got| - 1];
      TakeMeans(init);
      TakeNext(init, c);
      assert got == init + [c];
    }
  }

  lemma LogKeeps(s: State, c: Byte, seen: nat)
    requires Inv(s) && Step(s, Log(c, seen)).Some?
    ensures Inv(Step(s, Log(c, seen)).value)
  {
    Appended(s.text, c);
    if c == LF {
      var line := Clean(Open(s.text));
      var u := Newline(s, seen);
      var fits := line != [] && |s.sent| - seen + |line| + 1 <= s.cap;
      AccountsNewline(s.text, s.published, s.dropped, fits);
      if fits {
        assert u.writer.whole[0..] == line + [LF];
        assert s.sent + (line + [LF]) == s.sent + line + [LF];
      }
    } else {
      AccountsPlain(s.text, s.published, s.dropped, c);
      PushByte(Open(s.text), c);
    }
  }

  lemma PutKeeps(s: State, n: nat)
    requires Inv(s) && Step(s, Put(n)).Some?
    ensures Inv(Step(s, Put(n)).value)
  {
    var w, put := s.writer.whole, s.writer.put + n;
    assert w[s.writer.put..] == w[s.writer.put..put] + w[put..];
    assert s.sent + w[s.writer.put..] == (s.sent + w[s.writer.put..put]) + w[put..];
    if put == |w| {
      assert w[put..] == [];
    }
  }

  /** Reading on changes nothing but what the drain has seen. */
  lemma ReadOn(s: State, u: State, shown: seq<Byte>)
    requires Inv(s) && u == s.(got := s.got + shown, tail := u.tail, rows := u.rows)
    requires (u.tail, u.rows) == TakeAll([], [], s.got + shown) && s.got + shown <= s.sent
    ensures Inv(u)
  {
  }

  lemma LookKeeps(s: State, n: nat)
    requires Inv(s) && |s.got| + n <= |s.sent|
    ensures Inv(Step(s, Look(n)).value)
  {
    var shown := s.sent[|s.got|..|s.got| + n];
    TakeMore([], [], s.got, shown);
    ReadOn(s, Step(s, Look(n)).value, shown);
  }

  lemma StepKeeps(s: State, a: Act)
    requires Inv(s)
    ensures Step(s, a).Some? ==> Inv(Step(s, a).value)
  {
    if Step(s, a).Some? {
      match a {
        case Log(c, seen) => LogKeeps(s, c, seen);
        case Put(n) => PutKeeps(s, n);
        case Look(n) => LookKeeps(s, n);
      }
    }
  }

  ghost predicate Follows(s: State, u: State) {
    exists a :: Step(s, a) == Some(u)
  }

  ghost function Next(): (State, State) -> bool {
    (s: State, u: State) => Follows(s, u)
  }

  ghost predicate IsRun(run: seq<State>) {
    Runs.IsRun(Next(), run)
  }

  lemma FollowKeeps(s: State, u: State)
    requires Inv(s) && Follows(s, u)
    ensures Inv(u)
  {
    var a :| Step(s, a) == Some(u);
    StepKeeps(s, a);
  }

  function Start(cap: nat): State {
    State(cap, [], Framing, [], [], [], [], [], [], 0)
  }

  lemma RunKeeps(run: seq<State>)
    requires IsRun(run) && Inv(run[0])
    ensures Inv(run[|run| - 1])
  {
    forall s, u | Next()(s, u) && ((x: State) => Inv(x))(s)
      ensures Inv(u)
    {
      FollowKeeps(s, u);
    }
    Runs.Invariant(Next(), (x: State) => Inv(x), run, |run| - 1);
  }

  /** What holds of a state that the invariant admits. */
  ghost predicate Arrived(s: State) {
    && Accounts(s.text, s.published, s.dropped)
    && s.rows <= RowsFor(s.published) && 0 <= |s.sent| - |s.got| <= s.cap
    && (s.writer.Framing? && s.got == s.sent ==>
          s.rows == RowsFor(s.published) && (s.dropped == 0 ==> s.rows == RowsFor(LinesOf(s.text))))
  }

  lemma ArrivedSoFar(s: State)
    requires Inv(s)
    ensures Arrived(s)
  {
    assert s.sent <= Promised(s);
    TakeMeans(s.got);
    EndToEnd(s.text, s.published, s.dropped, s.got);
  }

  /** In every interleaving the rows drawn so far are rows of the published lines,
      in order and none skipped, whether or not the drain saw lines in pieces; the
      stream never holds more than it can; once the framer is not writing and the
      drain has read everything there is one row for each published line, and
      without drops one for each line of the text. */
  lemma LinesArrive(run: seq<State>, cap: nat)
    requires IsRun(run) && run[0] == Start(cap)
    ensures Arrived(run[|run| - 1])
  {
    RunKeeps(run);
    ArrivedSoFar(run[|run| - 1]);
  }
}
