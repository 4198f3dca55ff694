/** The overwrite-oldest log ring in RAM (infrastructure__logging/logging_idf.c). */
module LogHistory {
  import opened Words
  import opened SpscRing

  function Newest(h: seq<Byte>, n: nat): seq<Byte>
    requires n <= |h|
  {
    h[|h| - n..]
  }

  /** Going back `back` cells from the write index lands on the cell of the
      history index `back` places from the end. */
  lemma StepBack(total: nat, back: nat, cap: nat)
    requires cap > 0 && back <= cap && back <= total
    ensures (total % cap + cap - back) % cap == (total - back) % cap
  {
    var q, w := total / cap, total % cap;
    assert total == q * cap + w;
    if w >= back {
      ModUnique(w + cap - back, cap, 1, w - back);
      ModUnique(total - back, cap, q, w - back);
    } else {
      ModUnique(w + cap - back, cap, 0, w + cap - back);
      assert (q - 1) * cap == q * cap - cap;
      ModUnique(total - back, cap, q - 1, w + cap - back);
    }
  }

  lemma StepForward(total: nat, cap: nat)
    requires cap > 0
    ensures (total % cap + 1) % cap == (total + 1) % cap
  {
    RunEnd(total, 1, cap);
    if total % cap + 1 == cap {
      ModUnique(cap, cap, 1, 0);
    } else {
      ModUnique(total % cap + 1, cap, 0, total % cap + 1);
    }
  }

  class LogRing {
    const rb: array<Byte>
    var w: nat
    var len: nat
    var overflow: bool
    ghost var history: seq<Byte>  // all bytes written since the last clear

    /** The ring holds the newest bytes of the history, as many as fit. */
    ghost predicate Valid()
      reads this, rb
    {
      && rb.Length > 0
      && w == |history| % rb.Length
      && len == Min(|history|, rb.Length)
      && (overflow <==> |history| > rb.Length)
      && forall j: nat :: |history| - len <= j < |history| ==> HoldsAt(rb[..], history, j)
    }

    constructor (bytes: nat)
      requires bytes > 0
      ensures Valid() && history == [] && rb.Length == bytes
    {
      rb := new Byte[bytes];
      w, len, overflow, history := 0, 0, false, [];
    }

    method WriteByte(b: Byte)
      requires Valid()
      modifies this, rb
      ensures Valid() && history == old(history) + [b]
    {
      ghost var cells, h := rb[..], history;
      rb[w] := b;
      StepForward(|h|, rb.Length);
      w := (w + 1) % rb.Length;
      if len < rb.Length {
        len := len + 1;
      } else {
        overflow := true;
      }
      history := history + [b];
      forall j: nat | |history| - len <= j < |history|
        ensures HoldsAt(rb[..], history, j)
      {
        if j < |h| {
          CellsDiffer(j, |h|, rb.Length);
          assert HoldsAt(cells, h, j);
        }
      }
    }

    /** Header, message and newline of one pushed line. */
    method PushLine(head: seq<Byte>, msg: seq<Byte>)
      requires Valid()
      modifies this, rb
      ensures Valid()
      ensures history == if rb.Length < 32 then old(history) else old(history) + head + msg + [10]
    {
      if rb.Length < 32 {
        return;
      }
      WriteAll(head);
      WriteAll(msg);
      WriteByte(10);
    }

    method WriteAll(bytes: seq<Byte>)
      requires Valid()
      modifies this, rb
      ensures Valid() && history == old(history) + bytes
    {
      ghost var h := history;
      for i := 0 to |bytes|
        invariant Valid() && history == h + bytes[..i]
      {
        WriteByte(bytes[i]);
        assert bytes[..i + 1] == bytes[..i] + [bytes[i]];
      }
      assert bytes[..|bytes|] == bytes;
    }

    method Clear()
      requires Valid()
      modifies this
      ensures Valid() && history == []
    {
      w, len, overflow, history := 0, 0, false, [];
    }

    method Stat() returns (capacity: nat, used: nat, overflowed: bool)
      requires Valid()
      ensures capacity == rb.Length && used == Min(|history|, capacity)
      ensures overflowed <==> |history| > capacity
    {
      capacity, used, overflowed := rb.Length, len, overflow;
    }

    /** The two-part copy: the history from index `at` on, across the wrap. */
    method CopyFromStart(start: nat, out: array<Byte>, n: nat, ghost at: nat) returns (ok: bool)
      requires Valid() && out != rb && n <= out.Length
      requires n > 0 ==> start == at % rb.Length
      requires |history| - len <= at && at + n <= |history|
      modifies out
      ensures ok <==> n > 0
      ensures n > 0 ==> out[..n] == history[at..at + n]
      ensures out[n..] == old(out[n..])
    {
      if n == 0 {
        return false;
      }
      ghost var cells := rb[..];
      assert forall j: nat :: |history| - len <= j < |history| ==> HoldsAt(cells, history, j);
      var first := if n < rb.Length - start then n else rb.Length - start;
      forall i | 0 <= i < first {
        out[i] := rb[start + i];
      }
      if n > first {
        forall i | 0 <= i < n - first {
          out[first + i] := rb[i];
        }
      }
      assert rb[..] == cells;
      forall i | 0 <= i < n
        ensures out[i] == history[at + i]
      {
        assert HoldsAt(cells, history, at + i);
        if i < first {
          CellRun(at, i, rb.Length);
        } else {
          RunEnd(at, first, rb.Length);
          CellRun(at + first, i - first, rb.Length);
        }
      }
      ok := true;
    }

    /** The cell `back` bytes before the write index. */
    method CellBack(back: nat) returns (start: nat)
      requires Valid() && back <= len
      ensures start == (|history| - back) % rb.Length
    {
      StepBack(|history|, back, rb.Length);
      start := (w + rb.Length - back) % rb.Length;
    }

    /** The oldest bytes held, at most `max` of them. */
    method Snapshot(out: array<Byte>, max: nat) returns (ok: bool, outLen: nat)
      requires Valid() && out != rb && max <= out.Length
      modifies out
      ensures ok <==> max > 0 && history != []
      ensures outLen == if ok then Min(max, Min(|history|, rb.Length)) else 0
      ensures ok ==> out[..outLen] == Newest(history, Min(|history|, rb.Length))[..outLen]
      ensures out[outLen..] == old(out[outLen..])
    {
      if max == 0 {
        return false, 0;
      }
      var n := len;
      var start := CellBack(len);
      if n > max {
        n := max;
      }
      ok := CopyFromStart(start, out, n, |history| - len);
      outLen := if ok then n else 0;
    }

    /** The newest bytes held, at most `tailBytes` and at most `max` of them. */
    method Tail(out: array<Byte>, max: nat, tailBytes: nat) returns (ok: bool, outLen: nat)
      requires Valid() && out != rb && max <= out.Length
      modifies out
      ensures ok <==> max > 0 && tailBytes > 0 && history != []
      ensures outLen == if ok then Min(max, Min(tailBytes, Min(|history|, rb.Length))) else 0
      ensures ok ==> out[..outLen] == Newest(history, outLen)
      ensures out[outLen..] == old(out[outLen..])
    {
      if max == 0 {
        return false, 0;
      }
      var take := if tailBytes < len then tailBytes else len;
      if take > max {
        take := max;
      }
      var start := CellBack(take);
      ok := CopyFromStart(start, out, take, |history| - take);
      outLen := if ok then take else 0;
    }
  }
}
