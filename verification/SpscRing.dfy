/** Lock-free byte ring with free-running 32-bit indices (core__spsc_ring). */
module SpscRing {
  import opened Words

  type Cap = x: U32 | 0 < x witness 1

  // ----- index arithmetic, shared by the class and by the interleaving model -----

  /** Unread bytes as one side computes them from the two 32-bit indices. */
  function UsedOf(head: U32, tail: U32): nat {
    Sub32(head, tail)
  }

  /** How many contiguous bytes `reserve` grants. */
  function ReserveLen(head: U32, tail: U32, cap: Cap, want: nat): nat
  {
    var used := UsedOf(head, tail);
    if used >= cap then 0
    else
      var n := if want > cap - used then cap - used else want;
      var off := And(head, cap - 1);
      if off >= cap then 0 else if n > cap - off then cap - off else n
  }

  /** How many contiguous bytes `peek` shows. */
  function PeekLen(head: U32, tail: U32, cap: Cap): nat
  {
    var used := UsedOf(head, tail);
    var off := And(tail, cap - 1);
    if off >= cap then 0 else if used > cap - off then cap - off else used
  }

  // ----- the logical stream behind the cells -----

  /** `sent` is all that was ever committed, `got` all that was consumed; the
      cells hold what lies between. */
  ghost predicate Backed(cells: seq<Byte>, sent: seq<Byte>, got: seq<Byte>) {
    && |cells| > 0
    && got <= sent
    && |sent| <= |got| + |cells|
    && forall j: nat :: |got| <= j < |sent| ==> HoldsAt(cells, sent, j)
  }

  ghost predicate HoldsAt(cells: seq<Byte>, sent: seq<Byte>, j: nat)
    requires |cells| > 0 && j < |sent|
  {
    cells[j % |cells|] == sent[j]
  }

  /** With true totals behind the wrapped indices, `reserve` grants the least of
      the wish, the free space and the distance to the end of the buffer. */
  lemma ReserveMeans(w: nat, seen: nat, cap: Cap, want: nat)
    requires IsPow2(cap) && seen <= w <= seen + cap
    ensures And(w % U32_MOD, cap - 1) == w % cap
    ensures ReserveLen(w % U32_MOD, seen % U32_MOD, cap, want)
         == Min(want, Min(cap - (w - seen), cap - w % cap))
  {
    WrapOffset(w, cap);
    WrapDistance(w, seen);
  }

  lemma PeekMeans(seen: nat, r: nat, cap: Cap)
    requires IsPow2(cap) && r <= seen <= r + cap
    ensures And(r % U32_MOD, cap - 1) == r % cap
    ensures PeekLen(seen % U32_MOD, r % U32_MOD, cap) == Min(seen - r, cap - r % cap)
  {
    WrapOffset(r, cap);
    WrapDistance(seen, r);
  }

  /** Writing at an offset beyond the committed bytes touches no unread cell. */
  lemma FreeCell(cap: nat, w: nat, r: nat, k: nat, j: nat)
    requires cap > 0 && w % cap + k < cap && r <= j < w <= r + cap && w + k < r + cap
    ensures w % cap + k != j % cap
  {
    CellRun(w, k, cap);
    CellsDiffer(j, w + k, cap);
  }

  lemma WriteKeeps(cells: seq<Byte>, sent: seq<Byte>, got: seq<Byte>, k: nat, b: Byte)
    requires Backed(cells, sent, got)
    requires |sent| % |cells| + k < |cells| && |sent| + k < |got| + |cells|
    ensures Backed(cells[|sent| % |cells| + k := b], sent, got)
  {
    var cells' := cells[|sent| % |cells| + k := b];
    forall j: nat | |got| <= j < |sent|
      ensures HoldsAt(cells', sent, j)
    {
      FreeCell(|cells|, |sent|, |got|, k, j);
      assert HoldsAt(cells, sent, j);
    }
  }

  /** Publishing the next n cells extends the stream by exactly those bytes. */
  lemma CommitKeeps(cells: seq<Byte>, sent: seq<Byte>, got: seq<Byte>, n: nat)
    requires Backed(cells, sent, got)
    requires |sent| % |cells| + n <= |cells| && |sent| + n <= |got| + |cells|
    ensures Backed(cells, sent + cells[|sent| % |cells|..|sent| % |cells| + n], got)
  {
    var off := |sent| % |cells|;
    var sent' := sent + cells[off..off + n];
    forall j: nat | |got| <= j < |sent'|
      ensures HoldsAt(cells, sent', j)
    {
      if j >= |sent| {
        CellRun(|sent|, j - |sent|, |cells|);
      } else {
        assert HoldsAt(cells, sent, j);
      }
    }
  }

  /** The cells at the read offset are the oldest unread bytes of the stream. */
  lemma ReadMeans(cells: seq<Byte>, sent: seq<Byte>, got: seq<Byte>, n: nat)
    requires Backed(cells, sent, got)
    requires |got| % |cells| + n <= |cells| && |got| + n <= |sent|
    ensures cells[|got| % |cells|..|got| % |cells| + n] == sent[|got|..|got| + n]
    ensures got + sent[|got|..|got| + n] == sent[..|got| + n]
    ensures Backed(cells, sent, sent[..|got| + n])
  {
    var run := cells[|got| % |cells|..|got| % |cells| + n];
    forall i | 0 <= i < n
      ensures run[i] == sent[|got| + i]
    {
      CellRun(|got|, i, |cells|);
      assert HoldsAt(cells, sent, |got| + i);
    }
    assert run == sent[|got|..|got| + n];
  }

  // ----- the ring object -----

  class Ring {
    const buf: array<Byte>
    const cap: Cap
    const mask: U32
    var head: U32
    var tail: U32
    // history: everything committed and everything consumed so far
    ghost var sent: seq<Byte>
    ghost var got: seq<Byte>

    ghost predicate Valid()
      reads this, buf
    {
      && cap >= 2 && IsPow2(cap) && mask == cap - 1 && buf.Length == cap
      && Backed(buf[..], sent, got)
      && head == |sent| % U32_MOD
      && tail == |got| % U32_MOD
    }

    ghost function Unread(): nat
      reads this
    {
      if |sent| >= |got| then |sent| - |got| else 0
    }

    /** `spsc_ring_init` on storage whose size passed the test of `Accepts`. */
    constructor (storage: array<Byte>, capBytes: U32)
      requires capBytes >= 2 && IsPow2(capBytes) && storage.Length == capBytes
      ensures Valid() && buf == storage && cap == capBytes && sent == [] && got == []
    {
      buf := storage;
      cap := capBytes;
      mask := capBytes - 1;
      head, tail := 0, 0;
      sent, got := [], [];
    }

    method Used() returns (n: nat)
      requires Valid()
      ensures n == Unread() <= cap
    {
      WrapDistance(|sent|, |got|);
      n := UsedOf(head, tail);
    }

    method Free() returns (n: nat)
      requires Valid()
      ensures n == cap - Unread()
    {
      WrapDistance(|sent|, |got|);
      var used := UsedOf(head, tail);
      n := if used >= cap then 0 else cap - used;
    }

    /** Offset and length of the granted region; length 0 stands for NULL. */
    method Reserve(want: nat) returns (off: nat, n: nat)
      requires Valid()
      ensures n == Min(want, Min(cap - Unread(), cap - |sent| % cap))
      ensures off == |sent| % cap
    {
      ReserveMeans(|sent|, |got|, cap, want);
      n := ReserveLen(head, tail, cap, want);
      off := And(head, mask);
    }

    /** The caller's memcpy into the region that `Reserve` granted. */
    method Fill(off: nat, data: seq<Byte>)
      requires Valid()
      requires off == |sent| % cap && off + |data| <= cap && Unread() + |data| <= cap
      modifies buf
      ensures Valid()
      ensures buf[off..off + |data|] == data
    {
      for i := 0 to |data|
        invariant Valid()
        invariant buf[off..off + i] == data[..i]
      {
        WriteKeeps(buf[..], sent, got, i, data[i]);
        ghost var before := buf[..];
        buf[off + i] := data[i];
        assert buf[..] == before[off + i := data[i]];
      }
    }

    /** Publishes the first n bytes of the granted region. */
    method Commit(n: nat)
      requires Valid()
      requires |sent| % cap + n <= cap && Unread() + n <= cap
      modifies this
      ensures Valid() && got == old(got) && tail == old(tail)
      ensures sent == old(sent) + buf[|old(sent)| % cap..|old(sent)| % cap + n]
    {
      ghost var off := |sent| % cap;
      CommitKeeps(buf[..], sent, got, n);
      assert buf[..][off..off + n] == buf[off..off + n];
      AddWrap(|sent|, n);
      if n != 0 {
        head := Add32(head, n);
      }
      sent := sent + buf[off..off + n];
    }

    /** Offset and length of the readable region; length 0 stands for NULL. */
    method Peek() returns (off: nat, n: nat)
      requires Valid()
      ensures n == Min(Unread(), cap - |got| % cap)
      ensures off == |got| % cap
      ensures buf[off..off + n] == sent[|got|..|got| + n]
      ensures n == 0 <==> got == sent
    {
      PeekMeans(|sent|, |got|, cap);
      n := PeekLen(head, tail, cap);
      off := And(tail, mask);
      ReadMeans(buf[..], sent, got, n);
      assert buf[..][off..off + n] == buf[off..off + n];
    }

    method Consume(n: nat)
      requires Valid()
      requires |got| % cap + n <= cap && n <= Unread()
      modifies this
      ensures Valid() && sent == old(sent) && head == old(head)
      ensures got == sent[..|old(got)| + n]
    {
      ReadMeans(buf[..], sent, got, n);
      AddWrap(|got|, n);
      if n != 0 {
        tail := Add32(tail, n);
      }
      got := sent[..|got| + n];
    }
  }

  lemma AddWrap(total: nat, n: nat)
    ensures Add32(total % U32_MOD, n) == (total + n) % U32_MOD
  {
  }

  /** The size test of `spsc_ring_init`. */
  method Accepts(capBytes: U32) returns (ok: bool)
    ensures ok <==> capBytes >= 2 && IsPow2(capBytes)
  {
    if capBytes == 0 || capBytes < 2 {
      return false;
    }
    Pow2Test(capBytes);
    ok := And(capBytes, capBytes - 1) == 0;
  }
}
