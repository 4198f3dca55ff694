/** The line accumulator between the formatted log text and the log stream
    (app__log_bus/app_log_bus.c). */
module LogBus {
  import opened Words
  import opened LogStream

  const ACC_CAP: nat := 512
  const LF: Byte := 10
  const CR: Byte := 13

  // ----- what the framing means, in terms of the whole text -----

  function LastN(s: seq<Byte>, n: nat): seq<Byte> {
    if |s| <= n then s else s[|s| - n..]
  }

  function StripCR(s: seq<Byte>): seq<Byte> {
    if s != [] && s[|s| - 1] == CR then s[..|s| - 1] else s
  }

  /** The line published for the text between two newlines. */
  function Clean(segment: seq<Byte>): seq<Byte> {
    StripCR(LastN(segment, ACC_CAP))
  }

  function Emit(segment: seq<Byte>): seq<seq<Byte>> {
    if Clean(segment) == [] then [] else [Clean(segment)]
  }

  /** The unfinished text after the last newline. */
  function Open(text: seq<Byte>): seq<Byte> {
    if text == [] || text[|text| - 1] == LF then [] else Open(text[..|text| - 1]) + [text[|text| - 1]]
  }

  /** The lines that the text so far asks to publish. */
  function LinesOf(text: seq<Byte>): seq<seq<Byte>> {
    if text == [] then []
    else
      var before := text[..|text| - 1];
      LinesOf(before) + if text[|text| - 1] == LF then Emit(Open(before)) else []
  }

  function Render(lines: seq<seq<Byte>>): seq<Byte> {
    if lines == [] then [] else Render(lines[..|lines| - 1]) + lines[|lines| - 1] + [LF]
  }

  ghost predicate IsLine(l: seq<Byte>) {
    0 < |l| <= ACC_CAP && LF !in l
  }

  /** `part` is `whole` with some members left out, order kept. */
  ghost predicate Subsequence<T>(part: seq<T>, whole: seq<T>) {
    part == [] || (whole != [] &&
      ((part[|part| - 1] == whole[|whole| - 1] && Subsequence(part[..|part| - 1], whole[..|whole| - 1]))
       || Subsequence(part, whole[..|whole| - 1])))
  }

  /** The line of a segment: of its last 512 bytes, all but a carriage return at
      the very end. */
  lemma CleanMeans(segment: seq<Byte>, line: seq<Byte>)
    requires line == Clean(segment)
    ensures segment != [] && segment[|segment| - 1] == 13 ==>
      line + [13] == segment[if |segment| > 512 then |segment| - 512 else 0..]
    ensures segment == [] || segment[|segment| - 1] != 13 ==>
      line == segment[if |segment| > 512 then |segment| - 512 else 0..]
  {
  }

  lemma {:induction false} OpenHasNoNewline(text: seq<Byte>)
    ensures LF !in Open(text)
  {
    if text != [] && text[|text| - 1] != LF {
      OpenHasNoNewline(text[..|text| - 1]);
    }
  }

  /** Every line asked for is non-empty, at most 512 bytes long and free of newlines. */
  lemma {:induction false} LinesAreLines(text: seq<Byte>)
    ensures forall l :: l in LinesOf(text) ==> IsLine(l)
  {
    if text != [] {
      LinesAreLines(text[..|text| - 1]);
      OpenHasNoNewline(text[..|text| - 1]);
    }
  }

  function Joined(segments: seq<seq<Byte>>): seq<Byte> {
    if segments == [] then [] else Joined(segments[..|segments| - 1]) + segments[|segments| - 1] + [10]
  }

  function EmitAll(segments: seq<seq<Byte>>): seq<seq<Byte>> {
    if segments == [] then [] else EmitAll(segments[..|segments| - 1]) + Emit(segments[|segments| - 1])
  }

  lemma OpenOne(text: seq<Byte>, c: Byte)
    requires c != LF
    ensures Open(text + [c]) == Open(text) + [c] && LinesOf(text + [c]) == LinesOf(text)
  {
    assert (text + [c])[..|text|] == text;
  }

  lemma {:induction false} OpenPlain(text: seq<Byte>, rest: seq<Byte>)
    requires LF !in rest
    ensures Open(text + rest) == Open(text) + rest
    ensures LinesOf(text + rest) == LinesOf(text)
    decreases |rest|
  {
    if rest == [] {
      assert text + rest == text;
    } else {
      OpenOne(text, rest[0]);
      OpenPlain(text + [rest[0]], rest[1..]);
      assert text + rest == (text + [rest[0]]) + rest[1..];
    }
  }

  /** Reading the definition forwards: the text is newline-terminated segments
      plus an unfinished rest, and each segment yields its own line and no other. */
  lemma {:induction false} LinesOfSegments(segments: seq<seq<Byte>>, rest: seq<Byte>)
    requires forall s: seq<Byte> :: s in segments ==> 10 !in s
    requires 10 !in rest
    ensures LinesOf(Joined(segments) + rest) == EmitAll(segments)
    ensures Open(Joined(segments) + rest) == rest
    decreases |segments|, |rest|
  {
    if segments == [] {
      OpenPlain([], rest);
    } else {
      var init, last := segments[..|segments| - 1], segments[|segments| - 1];
      LinesOfSegments(init, last);
      var text := Joined(segments);
      assert text[..|text| - 1] == Joined(init) + last;
      OpenPlain(text, rest);
    }
  }

  lemma PushByte(open: seq<Byte>, c: Byte)
    ensures LastN(open + [c], ACC_CAP)
         == if |open| < ACC_CAP then LastN(open, ACC_CAP) + [c] else LastN(open, ACC_CAP)[1..] + [c]
  {
  }

  /** The published lines are those asked for, in order, but for the dropped ones. */
  ghost predicate Accounts(text: seq<Byte>, published: seq<seq<Byte>>, dropped: nat) {
    && Subsequence(published, LinesOf(text))
    && |published| + dropped == |LinesOf(text)|
    && (dropped == 0 ==> published == LinesOf(text))
  }

  lemma AccountsPlain(text: seq<Byte>, published: seq<seq<Byte>>, dropped: nat, c: Byte)
    requires Accounts(text, published, dropped) && c != LF
    ensures Accounts(text + [c], published, dropped)
  {
    Appended(text, c);
    assert LinesOf(text + [c]) == LinesOf(text);
  }

  lemma AccountsNewline(text: seq<Byte>, published: seq<seq<Byte>>, dropped: nat, sent: bool)
    requires Accounts(text, published, dropped)
    requires sent ==> Clean(Open(text)) != []
    ensures var line := Clean(Open(text));
      if sent then Accounts(text + [LF], published + [line], dropped)
                   && Render(published + [line]) == Render(published) + line + [LF]
      else Accounts(text + [LF], published, dropped + if line == [] then 0 else 1)
  {
    Appended(text, LF);
    var line := Clean(Open(text));
    if line == [] {
      assert LinesOf(text + [LF]) == LinesOf(text);
    } else {
      assert (published + [line])[..|published|] == published;
      assert (LinesOf(text) + [line])[..|LinesOf(text)|] == LinesOf(text);
    }
  }

  // ----- the accumulator object -----

  /** Writes one line and its newline if the stream has room for both; never a
      part of them, and nothing at all for an empty line. */
  method PublishLine(stream: Stream, line: seq<Byte>) returns (ok: bool)
    requires stream.Valid() && stream.ring != null && stream.storage.Length < 0x1_0000_0000
    modifies stream, stream.ring, stream.storage
    ensures stream.Valid() && stream.ring == old(stream.ring)
    ensures old(stream.Got()) <= stream.Got()
    ensures stream.Sent() == old(stream.Sent()) + if ok then line + [LF] else []
    ensures ok ==> line != []
    ensures line != [] && |old(stream.Sent())| - |old(stream.Got())| + |line| + 1 <= stream.storage.Length ==> ok
  {
    ok := false;
    var capacity := stream.CapacityBytes();
    var used := stream.Used();
    if capacity - used >= |line| + 1 {
      ghost var room, rounds;
      ok, room, rounds := stream.WriteAll(line);
      if ok {
        ok, room, rounds := stream.WriteAll([LF]);
      }
    }
  }

  class Framer {
    const acc: array<Byte>
    var len: nat
    const stream: Stream
    var readyPosts: nat  // EV_LOG_READY notifications sent
    // history: all text appended, the lines published, how many were dropped
    ghost var text: seq<Byte>
    ghost var published: seq<seq<Byte>>
    ghost var dropped: nat

    ghost predicate Valid()
      reads this, acc, stream, stream.storage, stream.ring,
            if stream.ring == null then {} else {stream.ring.buf}
    {
      && acc.Length == ACC_CAP && acc != stream.storage
      && stream.Valid() && stream.ring != null && stream.storage.Length < 0x1_0000_0000
      && len <= ACC_CAP
      && acc[..len] == LastN(Open(text), ACC_CAP)
      && stream.Sent() == Render(published)
      && Accounts(text, published, dropped)
      && readyPosts == |published|
    }

    constructor (stream: Stream)
      requires stream.Valid() && stream.ring != null && stream.Sent() == []
      requires stream.storage.Length < 0x1_0000_0000
      ensures Valid() && this.stream == stream && fresh(acc) && text == [] && dropped == 0
    {
      acc := new Byte[ACC_CAP];
      len := 0;
      this.stream := stream;
      readyPosts := 0;
      text, published, dropped := [], [], 0;
    }

    /** The newline: publish the accumulated line if the stream has room for it
        whole, and start afresh. */
    method FlushLine()
      requires Valid()
      modifies this, stream, stream.ring, stream.storage
      ensures Valid() && stream.ring == old(stream.ring)
      ensures text == old(text) + [LF]
      ensures published == old(published) || published == old(published) + [Clean(Open(old(text)))]
      ensures stream.Sent() == old(stream.Sent())
        + if published == old(published) then [] else Clean(Open(old(text))) + [LF]
      ensures old(stream.Got()) <= stream.Got()
      ensures |old(stream.Sent())| - |old(stream.Got())| + old(len) + 1 <= stream.storage.Length
        ==> dropped == old(dropped)
      ensures |stream.Sent()| <= |old(stream.Sent())| + old(len) + 1
    {
      ghost var line := Clean(Open(text));
      Appended(text, LF);
      if len == 0 {
        AccountsNewline(text, published, dropped, false);
        text := text + [LF];
        return;
      }
      var n := if acc[len - 1] == CR then len - 1 else len;
      assert acc[..n] == line;
      var sent := PublishLine(stream, acc[..n]);
      AccountsNewline(text, published, dropped, sent);
      assert acc[..0] == [] == LastN(Open(text + [LF]), ACC_CAP);
      text := text + [LF];
      len := 0;
      if sent {
        readyPosts := readyPosts + 1;
        published := published + [line];
      } else if line != [] {
        dropped := dropped + 1;
      }
    }

    method Append(chunk: seq<Byte>)
      requires Valid()
      modifies this, acc, stream, stream.ring, stream.storage
      ensures Valid() && stream.ring == old(stream.ring)
      ensures text == old(text) + chunk
      ensures old(published) <= published
      ensures old(stream.Got()) <= stream.Got()
    {
      ghost var text0, got0, published0 := text, stream.Got(), published;
      for i := 0 to |chunk|
        invariant Valid() && stream.ring == old(stream.ring)
        invariant text == text0 + chunk[..i]
        invariant got0 <= stream.Got() && published0 <= published
      {
        ghost var before := published;
        AppendByte(chunk[i]);
        OneMore(text0, chunk, i);
        assert before <= published;
      }
      assert chunk[..|chunk|] == chunk;
    }

    method AppendByte(c: Byte)
      requires Valid()
      modifies this, acc, stream, stream.ring, stream.storage
      ensures Valid() && stream.ring == old(stream.ring)
      ensures text == old(text) + [c]
      ensures published == old(published) || (c == LF && published == old(published) + [Clean(Open(old(text)))])
      ensures old(stream.Got()) <= stream.Got()
    {
      if c == LF {
        FlushLine();
      } else {
        Push(c);
      }
    }

    method Push(c: Byte)
      requires Valid() && c != LF
      modifies this, acc
      ensures Valid()
      ensures text == old(text) + [c]
      ensures published == old(published) && dropped == old(dropped)
    {
      Appended(text, c);
      AccountsPlain(text, published, dropped, c);
      PushByte(Open(text), c);
      Store(c);
      text := text + [c];
    }

    /** The accumulator with c at its end, and its oldest byte gone if it was full. */
    method Store(c: Byte)
      requires acc.Length == ACC_CAP && len <= ACC_CAP
      modifies this`len, acc
      ensures len <= ACC_CAP
      ensures acc[..len] == (if old(len) < ACC_CAP then old(acc[..len]) else old(acc[..len])[1..]) + [c]
    {
      if len < ACC_CAP {
        acc[len] := c;
        len := len + 1;
      } else {
        forall k | 0 <= k < ACC_CAP - 1 {
          acc[k] := acc[k + 1];
        }
        acc[ACC_CAP - 1] := c;
        assert acc[..] == old(acc[..])[1..] + [c];
      }
    }
  }

  lemma OneMore(text: seq<Byte>, chunk: seq<Byte>, i: nat)
    requires i < |chunk|
    ensures text + chunk[..i + 1] == (text + chunk[..i]) + [chunk[i]]
  {
  }

  lemma Appended(text: seq<Byte>, c: Byte)
    ensures Open(text + [c]) == if c == LF then [] else Open(text) + [c]
    ensures LinesOf(text + [c]) == LinesOf(text) + if c == LF then Emit(Open(text)) else []
    ensures forall part: seq<seq<Byte>> :: Subsequence(part, LinesOf(text)) ==> Subsequence(part, LinesOf(text + [c]))
  {
    assert (text + [c])[..|text|] == text;
    var w, w' := LinesOf(text), LinesOf(text + [c]);
    if |w'| > |w| {
      assert w'[..|w'| - 1] == w;
    } else {
      assert w' == w;
    }
  }
}
