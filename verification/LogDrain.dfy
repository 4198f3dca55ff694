/** The consumer of the log stream: re-frames the bytes and draws the last
    sixteen characters of each line (app__demo_lcd/app_demo_lcd.c). */
module LogDrain {
  import opened Words
  import opened LogStream
  import opened LogBus

  const COLS: nat := 16
  const SPACE: Byte := 0x20

  // ----- what is drawn, in terms of the bytes received -----

  function NoCR(s: seq<Byte>): seq<Byte> {
    if s == [] then []
    else NoCR(s[..|s| - 1]) + if s[|s| - 1] == CR then [] else [s[|s| - 1]]
  }

  function Pad(s: seq<Byte>): (r: seq<Byte>)
    ensures |s| <= COLS ==> |r| == COLS && s <= r && forall k :: |s| <= k < COLS ==> r[k] == SPACE
    decreases COLS - |s|
  {
    if |s| >= COLS then s else Pad(s + [SPACE])
  }

  function Tail(line: seq<Byte>): seq<Byte> {
    LastN(NoCR(line), COLS)
  }

  /** What the row shows for one received line. */
  function RowFor(line: seq<Byte>): seq<Byte> {
    Pad(Tail(line))
  }

  lemma {:induction false} NoCRIs(line: seq<Byte>)
    requires 13 !in line
    ensures NoCR(line) == line
  {
    if line != [] {
      NoCRIs(line[..|line| - 1]);
    }
  }

  lemma {:induction false} NoCRSkips(a: seq<Byte>, b: seq<Byte>)
    ensures NoCR(a + [13] + b) == NoCR(a + b)
    decreases |b|
  {
    if b == [] {
      assert a + [13] + b == a + [13] && a + b == a;
      assert (a + [13])[..|a|] == a;
      assert NoCR(a) + [] == NoCR(a);
    } else {
      NoCRSkips(a, b[..|b| - 1]);
      assert (a + [13] + b)[..|a + [13] + b| - 1] == a + [13] + b[..|b| - 1];
      assert (a + b)[..|a + b| - 1] == a + b[..|b| - 1];
    }
  }

  /** A row shows the last sixteen characters of its line, with spaces behind a
      shorter one; a carriage return anywhere makes no difference. */
  lemma RowMeans(line: seq<Byte>, a: seq<Byte>, b: seq<Byte>)
    ensures RowFor(a + [13] + b) == RowFor(a + b)
    ensures 13 !in line ==>
      && |RowFor(line)| == 16
      && forall k :: 0 <= k < 16 ==>
           RowFor(line)[k] == if |line| >= 16 then line[|line| - 16 + k] else if k < |line| then line[k] else 32
  {
    NoCRSkips(a, b);
    if 13 !in line {
      NoCRIs(line);
    }
  }

  /** The draws caused by the bytes received so far. */
  function Rows(text: seq<Byte>): seq<seq<Byte>> {
    if text == [] then []
    else
      var before := text[..|text| - 1];
      Rows(before) + if text[|text| - 1] == LF then [RowFor(Open(before))] else []
  }

  function RowsFor(lines: seq<seq<Byte>>): seq<seq<Byte>> {
    if lines == [] then [] else RowsFor(lines[..|lines| - 1]) + [RowFor(lines[|lines| - 1])]
  }

  lemma OpenNext(text: seq<Byte>, c: Byte)
    ensures Open(text + [c]) == if c == LF then [] else Open(text) + [c]
    ensures Rows(text + [c]) == Rows(text) + if c == LF then [RowFor(Open(text))] else []
  {
    assert (text + [c])[..|text|] == text;
  }

  lemma TailNext(line: seq<Byte>, c: Byte)
    ensures Tail(line + [c]) ==
      if c == CR then Tail(line)
      else if |Tail(line)| < COLS then Tail(line) + [c]
      else Tail(line)[1..] + [c]
  {
    assert (line + [c])[..|line|] == line;
    assert NoCR(line + [c]) == NoCR(line) + if c == CR then [] else [c];
    if c == CR {
      assert NoCR(line) + [] == NoCR(line);
    }
  }

  lemma {:induction false} RowsGrow(text: seq<Byte>, more: seq<Byte>)
    ensures Rows(text) <= Rows(text + more)
    decreases |more|
  {
    if more == [] {
      assert text + more == text;
    } else {
      RowsGrow(text, more[..|more| - 1]);
      assert (text + more)[..|text + more| - 1] == text + more[..|more| - 1];
    }
  }

  lemma {:induction false} RowsPlain(text: seq<Byte>, rest: seq<Byte>)
    requires LF !in rest
    ensures Rows(text + rest) == Rows(text)
    decreases |rest|
  {
    if rest == [] {
      assert text + rest == text;
    } else {
      RowsPlain(text, rest[..|rest| - 1]);
      assert (text + rest)[..|text + rest| - 1] == text + rest[..|rest| - 1];
    }
  }

  lemma OneMoreLine(text: seq<Byte>, line: seq<Byte>)
    requires Open(text) == [] && LF !in line
    ensures Rows(text + line + [LF]) == Rows(text) + [RowFor(line)]
    ensures Open(text + line + [LF]) == []
  {
    RowsPlain(text, line);
    OpenPlain(text, line);
    assert [] + line == line;
    OpenNext(text + line, LF);
  }

  /** Framing and draining compose: a stream made of whole lines draws one row
      per line, in order, and each row shows its own line. */
  lemma {:induction false} RowsOfLines(lines: seq<seq<Byte>>)
    requires forall i :: 0 <= i < |lines| ==> IsLine(lines[i])
    ensures Rows(Render(lines)) == RowsFor(lines)
    ensures Open(Render(lines)) == []
  {
    if lines != [] {
      RowsOfLines(lines[..|lines| - 1]);
      OneMoreLine(Render(lines[..|lines| - 1]), lines[|lines| - 1]);
    }
  }

  lemma {:induction false} SubsequenceMembers(part: seq<seq<Byte>>, whole: seq<seq<Byte>>)
    requires Subsequence(part, whole)
    ensures forall l :: l in part ==> l in whole
    decreases |whole|
  {
    if part != [] {
      var w := whole[..|whole| - 1];
      if Subsequence(part, w) {
        SubsequenceMembers(part, w);
      } else {
        SubsequenceMembers(part[..|part| - 1], w);
        forall l | l in part
          ensures l in whole
        {
          if l !in part[..|part| - 1] {
            assert l == part[|part| - 1];
          }
        }
      }
    }
  }

  /** End to end: for any text logged, in any chunks, and any prefix of the stream
      consumed so far, the rows drawn are the rows of the published lines, in
      order and none skipped; once everything is consumed there is one row for
      each. Without drops the published lines are all the lines of the text. */
  lemma EndToEnd(text: seq<Byte>, published: seq<seq<Byte>>, dropped: nat, got: seq<Byte>)
    requires Accounts(text, published, dropped)
    requires got <= Render(published)
    ensures Rows(got) <= RowsFor(published)
    ensures got == Render(published) ==> Rows(got) == RowsFor(published)
    ensures dropped == 0 && got == Render(published) ==> Rows(got) == RowsFor(LinesOf(text))
  {
    LinesAreLines(text);
    SubsequenceMembers(published, LinesOf(text));
    RowsOfLines(published);
    RowsGrow(got, Render(published)[|got|..]);
    assert got + Render(published)[|got|..] == Render(published);
  }

  // ----- the drain object -----

  class Drain {
    const tail: array<Byte>
    var tailLen: nat
    const stream: Stream
    var rows: seq<seq<Byte>>  // rows handed to the display, in order

    /** Tail and draws depend on the bytes received and on nothing else. */
    ghost predicate Shows(text: seq<Byte>)
      reads this, tail
    {
      && tail.Length == COLS && tailLen <= COLS
      && tail[..tailLen] == Tail(Open(text))
      && rows == Rows(text)
    }

    ghost predicate Valid()
      reads this, tail, stream, stream.storage, stream.ring,
            if stream.ring == null then {} else {stream.ring.buf}
    {
      && stream.Valid() && stream.ring != null && tail != stream.storage
      && Shows(stream.Got())
    }

    constructor (stream: Stream)
      requires stream.Valid() && stream.ring != null && stream.Got() == []
      ensures Valid() && this.stream == stream && fresh(tail) && rows == []
    {
      tail := new Byte[COLS];
      tailLen := 0;
      this.stream := stream;
      rows := [];
    }

    method PushTail(c: Byte)
      requires tail.Length == COLS && tailLen <= COLS
      modifies this`tailLen, tail
      ensures tailLen <= COLS
      ensures tail[..tailLen] == if old(tailLen) < COLS then old(tail[..tailLen]) + [c] else old(tail[..tailLen])[1..] + [c]
    {
      if tailLen < COLS {
        tail[tailLen] := c;
        tailLen := tailLen + 1;
        return;
      }
      forall k | 0 <= k < COLS - 1 {
        tail[k] := tail[k + 1];
      }
      tail[COLS - 1] := c;
    }

    method Receive(c: Byte, ghost text: seq<Byte>)
      requires Shows(text)
      modifies this, tail
      ensures Shows(text + [c])
    {
      OpenNext(text, c);
      TailNext(Open(text), c);
      if c == LF {
        var row := PadRow(tail[..tailLen]);
        rows := rows + [row];
        tailLen := 0;
      } else if c != CR {
        PushTail(c);
      }
    }

    method ReceiveAll(shown: seq<Byte>, ghost text: seq<Byte>)
      requires Shows(text)
      modifies this, tail
      ensures Shows(text + shown)
    {
      assert text + shown[..0] == text;
      for i := 0 to |shown|
        invariant Shows(text + shown[..i])
      {
        assert text + shown[..i + 1] == text + shown[..i] + [shown[i]];
        Receive(shown[i], text + shown[..i]);
      }
      assert shown[..|shown|] == shown;
    }

    /** Processes what one look at the stream shows, without consuming it. */
    method ProcessShown() returns (n: nat)
      requires Valid()
      modifies this, tail
      ensures stream.Valid() && stream.ring != null && tail != stream.storage
      ensures stream.Readable(n) && |stream.Got()| + n <= |stream.Sent()|
      ensures Shows(stream.Sent()[..|stream.Got()| + n])
      ensures n == 0 <==> stream.Got() == stream.Sent()
    {
      var shown := Look();
      n := |shown|;
      ReceiveAll(shown, stream.Got());
    }

    /** The bytes that one look at the stream shows. */
    method Look() returns (shown: seq<Byte>)
      requires Valid()
      ensures stream.Readable(|shown|) && |stream.Got()| + |shown| <= |stream.Sent()|
      ensures stream.Got() + shown == stream.Sent()[..|stream.Got()| + |shown|]
      ensures shown == [] <==> stream.Got() == stream.Sent()
    {
      var off, n := stream.Peek();
      shown := stream.storage[off..off + n];
    }

    /** One turn of the drain loop: draw what was shown, then consume it. */
    method Turn() returns (n: nat)
      requires Valid()
      modifies this, tail, stream.ring
      ensures Valid() && stream.Sent() == old(stream.Sent())
      ensures |old(stream.Got())| + n <= |stream.Sent()|
      ensures stream.Got() == stream.Sent()[..|old(stream.Got())| + n]
      ensures n == 0 ==> stream.Got() == stream.Sent()
    {
      n := ProcessShown();
      ghost var text := stream.Sent()[..|stream.Got()| + n];
      stream.Consume(n);
      assert stream.Got() == text;
    }

    /** Drains until the stream is empty. */
    method DrainAll()
      requires Valid()
      modifies this, tail, stream.ring
      ensures Valid() && stream.Sent() == old(stream.Sent()) == stream.Got()
    {
      while true
        invariant Valid() && stream.Sent() == old(stream.Sent())
        decreases |stream.Sent()| - |stream.Got()|
      {
        var n := Turn();
        if n == 0 {
          break;
        }
      }
    }
  }

  /** The memcpy and memset of `lcd_print_line16`. */
  method PadRow(s: seq<Byte>) returns (r: seq<Byte>)
    ensures r == Pad(if |s| > COLS then s[..COLS] else s)
    ensures |r| == COLS
  {
    var n := if |s| > COLS then COLS else |s|;
    r := s[..n];
    while |r| < COLS
      invariant n <= |r| <= COLS && Pad(r) == Pad(s[..n])
      decreases COLS - |r|
    {
      r := r + [SPACE];
    }
  }
}
