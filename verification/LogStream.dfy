/** The log stream: an all-or-nothing writer over the byte ring
    (infrastructure__logging/infra_log_stream.c). */
module LogStream {
  import opened Words
  import opened SpscRing

  /** Everything a consumer on another core may do between two ring calls of the
      producer: look and consume, any number of times, any amounts. */
  method ConsumerRuns(ring: Ring)
    requires ring.Valid()
    modifies ring
    ensures ring.Valid() && ring.sent == old(ring.sent)
    ensures old(ring.got) <= ring.got
  {
    var rounds: nat :| true;
    for i := 0 to rounds
      invariant ring.Valid() && ring.sent == old(ring.sent) && old(ring.got) <= ring.got
    {
      var off, n := ring.Peek();
      var k: nat :| k <= n;
      ring.Consume(k);
    }
  }

  /** One turn of the write loop: reserve, copy, commit. */
  method PutChunk(ring: Ring, rest: seq<Byte>) returns (n: nat)
    requires ring.Valid() && |rest| > 0
    modifies ring, ring.buf
    ensures ring.Valid() && n <= |rest|
    ensures ring.sent == old(ring.sent) + rest[..n] && old(ring.got) <= ring.got
    ensures |rest| <= ring.cap - old(ring.Unread()) ==>
      && n == Min(|rest|, ring.cap - |old(ring.sent)| % ring.cap)
      && ring.Unread() <= old(ring.Unread()) + n
  {
    ConsumerRuns(ring);
    var off;
    off, n := ring.Reserve(|rest|);
    if n == 0 {
      return;
    }
    ring.Fill(off, rest[..n]);
    ConsumerRuns(ring);
    ring.Commit(n);
  }

  /** The write loop, entered with enough free space: it cannot fail, whatever
      the consumer does, and two turns always suffice. */
  method PutAll(ring: Ring, data: seq<Byte>) returns (ok: bool, ghost rounds: nat)
    requires ring.Valid() && 0 < |data| <= ring.cap - ring.Unread()
    modifies ring, ring.buf
    ensures ring.Valid() && ok && rounds <= 2
    ensures ring.sent == old(ring.sent) + data && old(ring.got) <= ring.got
  {
    ok, rounds := true, 0;
    var p := 0;
    while p < |data|
      invariant p <= |data| && ok
      invariant ring.Valid() && |data| - p <= ring.cap - ring.Unread()
      invariant ring.sent == old(ring.sent) + data[..p] && old(ring.got) <= ring.got
      invariant p == 0 ==> rounds == 0
      invariant p > 0 ==> rounds == if p == |data| then rounds else 1
      invariant rounds <= 2
      invariant 0 < p < |data| ==> |ring.sent| % ring.cap == 0
    {
      ghost var total := |ring.sent|;
      var n := PutChunk(ring, data[p..]);
      if n == 0 {
        ok := false;
        break;
      }
      RunEnd(total, n, ring.cap);
      assert data[..p] + data[p..][..n] == data[..p + n];
      p := p + n;
      rounds := rounds + 1;
    }
  }

  class Stream {
    const storage: array<Byte>
    var ring: Ring?  // null until initialised
    var drop: U32

    ghost predicate Valid()
      reads this, storage, ring, if ring == null then {} else {ring.buf}
    {
      ring != null ==> ring.Valid() && ring.buf == storage
    }

    /** All bytes ever written, and all bytes ever read. */
    ghost function Sent(): seq<Byte>
      reads this, ring
    {
      if ring == null then [] else ring.sent
    }

    ghost function Got(): seq<Byte>
      reads this, ring
    {
      if ring == null then [] else ring.got
    }

    /** n bytes lie contiguously at the read position. */
    ghost predicate Readable(n: nat)
      reads this, ring
    {
      ring != null ==> |ring.got| % ring.cap + n <= ring.cap && |ring.got| + n <= |ring.sent|
    }

    constructor (bytes: nat)
      ensures Valid() && fresh(storage) && storage.Length == bytes
      ensures ring == null && drop == 0
    {
      storage := new Byte[bytes];
      ring, drop := null, 0;
    }

    method Init()
      requires Valid() && storage.Length < U32_MOD
      modifies this`ring
      ensures Valid() && Sent() == old(Sent()) && Got() == old(Got())
      ensures old(ring) != null ==> ring == old(ring)
      ensures old(ring) == null && ring != null ==> fresh(ring)
      ensures ring != null <==> old(ring) != null || (storage.Length >= 2 && IsPow2(storage.Length))
    {
      if ring != null {
        return;
      }
      var ok := Accepts(storage.Length);
      if ok {
        ring := new Ring(storage, storage.Length);
      }
    }

    /** Writes all of `data` or nothing, whatever the consumer does meanwhile.
        `room` is the free space found by the check at the start. */
    method WriteAll(data: seq<Byte>) returns (ok: bool, ghost room: nat, ghost rounds: nat)
      requires Valid() && storage.Length < U32_MOD
      modifies this, ring, storage
      ensures Valid() && (old(ring) != null ==> ring == old(ring)) && (ring != null ==> ring == old(ring) || fresh(ring))
      ensures ring != null <==> old(ring) != null || (storage.Length >= 2 && IsPow2(storage.Length))
      ensures ok <==> ring != null && 0 < |data| <= room
      ensures Sent() == old(Sent()) + if ok then data else []
      ensures old(Got()) <= Got() <= Sent()
      ensures ring != null && |data| > 0 ==> storage.Length - (|old(Sent())| - |old(Got())|) <= room <= storage.Length
      ensures rounds <= 2
      ensures drop == if ring != null && |data| > 0 && !ok then (old(drop) + 1) % U32_MOD else old(drop)
    {
      room, rounds := 0, 0;
      if ring == null {
        Init();
      }
      if ring == null || |data| == 0 {
        return false, room, rounds;
      }
      ConsumerRuns(ring);
      var free := ring.Free();
      room := free;
      ok := false;
      if |data| <= free {
        ok, rounds := PutAll(ring, data);
      }
      if !ok {
        drop := (drop + 1) % U32_MOD;
      }
    }

    method Peek() returns (off: nat, n: nat)
      requires Valid()
      ensures off + n <= storage.Length
      ensures |Got()| + n <= |Sent()| && storage[off..off + n] == Sent()[|Got()|..|Got()| + n]
      ensures n == 0 <==> Got() == Sent()
      ensures Readable(n)
    {
      if ring == null {
        return 0, 0;
      }
      off, n := ring.Peek();
    }

    method Consume(n: nat)
      requires Valid()
      requires Readable(n)
      modifies ring
      ensures Valid() && Sent() == old(Sent())
      ensures Got() == if ring == null then [] else Sent()[..|old(Got())| + n]
    {
      if ring != null {
        ring.Consume(n);
      }
    }

    method CapacityBytes() returns (n: nat)
      ensures n == storage.Length
    {
      n := storage.Length;
    }

    method Used() returns (n: nat)
      requires Valid()
      ensures n == |Sent()| - |Got()| <= storage.Length
    {
      if ring == null {
        return 0;
      }
      n := ring.Used();
    }
  }
}
