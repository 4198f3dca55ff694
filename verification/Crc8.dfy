/** The 1-Wire CRC-8 (infrastructure__gpio_onewire/gpio_onewire.c): the byte loop,
    its algebra over messages of any length, and which errors the zero check of a
    received scratchpad detects. */
module Crc8 {

  type Bits = seq<bool>

  /** A `uint8_t`, b0 its least significant bit. */
  datatype Octet = Octet(b0: bool, b1: bool, b2: bool, b3: bool, b4: bool, b5: bool, b6: bool, b7: bool)

  const ZERO := Octet(false, false, false, false, false, false, false, false)
  const ONE := Octet(true, false, false, false, false, false, false, false)
  const POLY := Octet(false, false, true, true, false, false, false, true)  // 0x8C

  function Shr(x: Octet): Octet {
    Octet(x.b1, x.b2, x.b3, x.b4, x.b5, x.b6, x.b7, false)
  }

  function Xor(x: Octet, y: Octet): Octet {
    Octet(x.b0 != y.b0, x.b1 != y.b1, x.b2 != y.b2, x.b3 != y.b3,
          x.b4 != y.b4, x.b5 != y.b5, x.b6 != y.b6, x.b7 != y.b7)
  }

  // ----- the register as a shift register fed bit by bit -----

  /** One clock of the reflected register of x^8 + x^5 + x^4 + 1. */
  function Step(r: Octet, bit: bool): Octet {
    var mix := r.b0 != bit;
    Octet(r.b1, r.b2, r.b3 != mix, r.b4 != mix, r.b5, r.b6, r.b7, mix)
  }

  function Feed(r: Octet, bits: Bits): Octet {
    if bits == [] then r else Step(Feed(r, bits[..|bits| - 1]), bits[|bits| - 1])
  }

  /** The bits on the wire: each byte least significant bit first. */
  function Wire(data: seq<Octet>): Bits {
    if data == [] then [] else Append8(Wire(data[..|data| - 1]), data[|data| - 1])
  }

  function Append4(b: Bits, p: bool, q: bool, s: bool, t: bool): (r: Bits)
    ensures |r| == |b| + 4
  {
    b + [p] + [q] + [s] + [t]
  }

  function Append8(b: Bits, x: Octet): Bits {
    Append4(Append4(b, x.b0, x.b1, x.b2, x.b3), x.b4, x.b5, x.b6, x.b7)
  }

  function Shr4(x: Octet): Octet {
    Octet(x.b4, x.b5, x.b6, x.b7, false, false, false, false)
  }

  /** Four clocks, fed the low bits of x. */
  function Step4(r: Octet, x: Octet): Octet {
    Step(Step(Step(Step(r, x.b0), x.b1), x.b2), x.b3)
  }

  function Step8(r: Octet, x: Octet): Octet {
    Step4(Step4(r, x), Shr4(x))
  }

  function Crc(data: seq<Octet>): Octet {
    Feed(ZERO, Wire(data))
  }

  lemma FeedOne(r: Octet, b: Bits, bit: bool)
    ensures Feed(r, b + [bit]) == Step(Feed(r, b), bit)
  {
    assert (b + [bit])[..|b|] == b;
  }

  lemma FeedFour(r: Octet, b: Bits, p: bool, q: bool, s: bool, t: bool)
    ensures Feed(r, Append4(b, p, q, s, t)) == Step(Step(Step(Step(Feed(r, b), p), q), s), t)
  {
    FeedOne(r, b, p);
    FeedOne(r, b + [p], q);
    FeedOne(r, b + [p] + [q], s);
    FeedOne(r, b + [p] + [q] + [s], t);
  }

  lemma FeedByte(r: Octet, b: Bits, x: Octet)
    ensures Feed(r, Append8(b, x)) == Step8(Feed(r, b), x)
  {
    FeedFour(r, b, x.b0, x.b1, x.b2, x.b3);
    FeedFour(r, Append4(b, x.b0, x.b1, x.b2, x.b3), x.b4, x.b5, x.b6, x.b7);
  }

  lemma {:induction false} FeedAppend(r: Octet, a: Bits, b: Bits)
    ensures Feed(r, a + b) == Feed(Feed(r, a), b)
    decreases |b|
  {
    if b == [] {
      assert a + b == a;
    } else {
      assert (a + b)[..|a + b| - 1] == a + b[..|b| - 1];
      FeedAppend(r, a, b[..|b| - 1]);
    }
  }

  // ----- the byte loop -----

  method OneWireCrc8(data: seq<Octet>) returns (crc: Octet)
    ensures crc == Crc(data)
  {
    crc := ZERO;
    var at := 0;
    while at < |data|
      invariant at <= |data| && crc == Crc(data[..at])
    {
      crc := CrcByte(crc, data[at]);
      assert data[..at + 1][..at] == data[..at];
      FeedByte(ZERO, Wire(data[..at]), data[at]);
      at := at + 1;
    }
    assert data[..at] == data;
  }

  /** What the inner loop still has to do with i bits left in `inbyte`. */
  function Rest(r: Octet, inbyte: Octet, i: nat): Octet
    decreases i
  {
    if i == 0 then r else Rest(Step(r, inbyte.b0), Shr(inbyte), i - 1)
  }

  lemma RestTwo(r: Octet, x: Octet, i: nat)
    requires i >= 2
    ensures Rest(r, x, i) == Rest(Step(Step(r, x.b0), x.b1), Shr(Shr(x)), i - 2)
  {
  }

  lemma RestOfByte(r: Octet, x: Octet)
    ensures Rest(r, x, 8) == Step8(r, x)
  {
    var r2 := Step(Step(r, x.b0), x.b1);
    var r4 := Step(Step(r2, x.b2), x.b3);
    var r6 := Step(Step(r4, x.b4), x.b5);
    var x2 := Shr(Shr(x));
    var x4 := Shr(Shr(x2));
    RestTwo(r, x, 8);
    RestTwo(r2, x2, 6);
    RestTwo(r4, x4, 4);
    RestTwo(r6, Shr(Shr(x4)), 2);
  }

  /** The inner loop: one byte, eight bits. */
  method CrcByte(before: Octet, byte: Octet) returns (crc: Octet)
    ensures crc == Step8(before, byte)
  {
    RestOfByte(before, byte);
    crc := before;
    var inbyte := byte;
    var i := 8;
    while i > 0
      invariant 0 <= i <= 8
      invariant Rest(crc, inbyte, i) == Step8(before, byte)
    {
      var mix := Xor(crc, inbyte).b0;
      crc := Shr(crc);
      if mix {
        crc := Xor(crc, POLY);
      }
      inbyte := Shr(inbyte);
      i := i - 1;
    }
  }

  // ----- linearity -----

  ghost predicate IsXorOf(c: Bits, a: Bits, b: Bits) {
    |c| == |a| == |b| && forall i :: 0 <= i < |c| ==> c[i] == (a[i] != b[i])
  }

  ghost predicate IsXorOfBytes(c: seq<Octet>, a: seq<Octet>, b: seq<Octet>) {
    |c| == |a| == |b| && forall i :: 0 <= i < |c| ==> c[i] == Xor(a[i], b[i])
  }

  lemma StepLinear(r: Octet, s: Octet, p: bool, q: bool)
    ensures Step(Xor(r, s), p != q) == Xor(Step(r, p), Step(s, q))
  {
  }

  lemma {:induction false} FeedLinear(r: Octet, s: Octet, a: Bits, b: Bits, c: Bits)
    requires IsXorOf(c, a, b)
    ensures Feed(Xor(r, s), c) == Xor(Feed(r, a), Feed(s, b))
    decreases |a|
  {
    if a != [] {
      var n := |a| - 1;
      FeedLinear(r, s, a[..n], b[..n], c[..n]);
      StepLinear(Feed(r, a[..n]), Feed(s, b[..n]), a[n], b[n]);
    }
  }

  lemma XorSnoc(c: Bits, a: Bits, b: Bits, z: bool, p: bool, q: bool)
    requires IsXorOf(c, a, b) && z == (p != q)
    ensures IsXorOf(c + [z], a + [p], b + [q])
  {
  }

  lemma XorFour(c: Bits, a: Bits, b: Bits, z: Octet, p: Octet, q: Octet)
    requires IsXorOf(c, a, b) && z == Xor(p, q)
    ensures IsXorOf(Append4(c, z.b0, z.b1, z.b2, z.b3), Append4(a, p.b0, p.b1, p.b2, p.b3), Append4(b, q.b0, q.b1, q.b2, q.b3))
  {
    var c1, a1, b1 := c + [z.b0], a + [p.b0], b + [q.b0];
    XorSnoc(c, a, b, z.b0, p.b0, q.b0);
    var c2, a2, b2 := c1 + [z.b1], a1 + [p.b1], b1 + [q.b1];
    XorSnoc(c1, a1, b1, z.b1, p.b1, q.b1);
    var c3, a3, b3 := c2 + [z.b2], a2 + [p.b2], b2 + [q.b2];
    XorSnoc(c2, a2, b2, z.b2, p.b2, q.b2);
    XorSnoc(c3, a3, b3, z.b3, p.b3, q.b3);
  }

  lemma XorByte(c: Bits, a: Bits, b: Bits, z: Octet, p: Octet, q: Octet)
    requires IsXorOf(c, a, b) && z == Xor(p, q)
    ensures IsXorOf(Append8(c, z), Append8(a, p), Append8(b, q))
  {
    XorFour(c, a, b, z, p, q);
    XorFour(Append4(c, z.b0, z.b1, z.b2, z.b3), Append4(a, p.b0, p.b1, p.b2, p.b3),
            Append4(b, q.b0, q.b1, q.b2, q.b3), Shr4(z), Shr4(p), Shr4(q));
  }

  lemma {:induction false} WireLinear(a: seq<Octet>, b: seq<Octet>, c: seq<Octet>)
    requires IsXorOfBytes(c, a, b)
    ensures IsXorOf(Wire(c), Wire(a), Wire(b)) && |Wire(c)| == 8 * |c|
    decreases |a|
  {
    if a != [] {
      var n := |a| - 1;
      WireLinear(a[..n], b[..n], c[..n]);
      XorByte(Wire(c[..n]), Wire(a[..n]), Wire(b[..n]), c[n], a[n], b[n]);
    }
  }

  /** The CRC is XOR-linear on messages of equal length. */
  lemma CrcLinear(a: seq<Octet>, b: seq<Octet>, c: seq<Octet>)
    requires IsXorOfBytes(c, a, b)
    ensures Crc(c) == Xor(Crc(a), Crc(b))
  {
    WireLinear(a, b, c);
    FeedLinear(ZERO, ZERO, Wire(a), Wire(b), Wire(c));
  }

  // ----- the zero check -----

  lemma Step8Zero(r: Octet, x: Octet)
    ensures Step8(r, x) == ZERO <==> x == r
  {
  }

  /** A message followed by one byte passes the zero check iff that byte is the
      message's own CRC. */
  lemma ZeroCheck(m: seq<Octet>, b: Octet)
    ensures Crc(m + [b]) == ZERO <==> b == Crc(m)
  {
    assert (m + [b])[..|m|] == m;
    FeedByte(ZERO, Wire(m), b);
    Step8Zero(Crc(m), b);
  }

  // ----- parity -----

  function Odd(bits: Bits): bool {
    if bits == [] then false else Odd(bits[..|bits| - 1]) != bits[|bits| - 1]
  }

  function OddOctet(x: Octet): bool {
    ((x.b0 != x.b1) != (x.b2 != x.b3)) != ((x.b4 != x.b5) != (x.b6 != x.b7))
  }

  lemma StepParity(r: Octet, bit: bool)
    ensures OddOctet(Step(r, bit)) == (OddOctet(r) != bit)
  {
  }

  /** The CRC has an odd number of ones iff the message has. */
  lemma {:induction false} CrcParity(bits: Bits)
    ensures OddOctet(Feed(ZERO, bits)) == Odd(bits)
    decreases |bits|
  {
    if bits != [] {
      CrcParity(bits[..|bits| - 1]);
      StepParity(Feed(ZERO, bits[..|bits| - 1]), bits[|bits| - 1]);
    }
  }

  // ----- error patterns: which flips the zero check detects -----

  ghost predicate NoFlip(bits: Bits) {
    forall i :: 0 <= i < |bits| ==> !bits[i]
  }

  /** The register is invertible: error-free bits never bring it to zero, nor away from it. */
  lemma {:induction false} IdleKeepsZero(r: Octet, bits: Bits)
    requires NoFlip(bits)
    ensures Feed(r, bits) == ZERO <==> r == ZERO
    decreases |bits|
  {
    if bits != [] {
      IdleKeepsZero(r, bits[..|bits| - 1]);
    }
  }

  /** Some bits are flipped, all of them within eight consecutive wire bits. */
  ghost predicate BurstAt(e: Bits, i: nat) {
    && i + 8 <= |e|
    && NoFlip(e[..i]) && !NoFlip(e[i..i + 8]) && NoFlip(e[i + 8..])
  }

  lemma Four(a: Bits, m: Bits)
    requires |m| == 4
    ensures a + m == Append4(a, m[0], m[1], m[2], m[3])
  {
  }

  lemma BurstSeen(e: Bits, i: nat)
    requires BurstAt(e, i)
    ensures Feed(ZERO, e) != ZERO
  {
    var m := e[i..i + 8];
    var x := Octet(m[0], m[1], m[2], m[3], m[4], m[5], m[6], m[7]);
    assert e[..i] + m == Append8(e[..i], x) by {
      Four(e[..i], m[..4]);
      Four(e[..i] + m[..4], m[4..]);
      assert e[..i] + m == (e[..i] + m[..4]) + m[4..];
    }
    BurstByte(e[..i], x, e[i + 8..]);
    assert e == (e[..i] + m) + e[i + 8..];
    assert x == ZERO ==> NoFlip(m);
  }

  lemma BurstByte(pre: Bits, x: Octet, post: Bits)
    requires NoFlip(pre) && NoFlip(post)
    ensures Feed(ZERO, Append8(pre, x) + post) == ZERO <==> x == ZERO
  {
    FeedAppend(ZERO, Append8(pre, x), post);
    FeedByte(ZERO, pre, x);
    IdleKeepsZero(ZERO, pre);
    IdleKeepsZero(Step8(ZERO, x), post);
    Step8Zero(ZERO, x);
  }

  // Double errors: after the first flip the register holds POLY and then runs
  // idle; the second flip cancels it only if it has come round to ONE.

  function Idle(r: Octet, n: nat): Octet
    decreases n
  {
    if n == 0 then r else Idle(Step(r, false), n - 1)
  }

  lemma {:induction false} IdleIsFeed(r: Octet, bits: Bits)
    requires NoFlip(bits)
    ensures Feed(r, bits) == Idle(r, |bits|)
    decreases |bits|
  {
    if bits != [] {
      IdleIsFeed(r, bits[..|bits| - 1]);
      IdleLast(r, |bits| - 1);
    }
  }

  lemma {:induction false} IdleLast(r: Octet, n: nat)
    ensures Idle(r, n + 1) == Step(Idle(r, n), false)
    decreases n
  {
    if n > 0 {
      IdleLast(Step(r, false), n - 1);
    }
  }

  lemma {:induction false} IdleAdd(r: Octet, a: nat, b: nat)
    ensures Idle(r, a + b) == Idle(Idle(r, a), b)
    decreases a
  {
    if a > 0 {
      IdleAdd(Step(r, false), a - 1, b);
    }
  }

  /** n idle steps bring r to ONE for the first time. */
  ghost predicate FirstOne(r: Octet, n: nat)
    decreases n
  {
    if n == 0 then r == ONE else r != ONE && FirstOne(Step(r, false), n - 1)
  }

  lemma {:induction false} FirstOneMeans(r: Octet, n: nat, k: nat)
    requires FirstOne(r, n) && k <= n
    ensures Idle(r, k) == ONE <==> k == n
    decreases n
  {
    if k > 0 {
      FirstOneMeans(Step(r, false), n - 1, k - 1);
    }
  }

  lemma Leap(r: Octet, next: Octet, n: nat)
    requires FirstOne(next, n)
    requires next == Step(Step(Step(Step(r, false), false), false), false)
    requires r != ONE && Step(r, false) != ONE && Step(Step(r, false), false) != ONE
    requires Step(Step(Step(r, false), false), false) != ONE
    ensures FirstOne(r, n + 4)
  {
    assert FirstOne(Step(Step(Step(r, false), false), false), n + 1);
    assert FirstOne(Step(Step(r, false), false), n + 2);
    assert FirstOne(Step(r, false), n + 3);
  }

  // The registers after 116, 108, ..., 4 idle steps from POLY, each eight steps
  // before the next.

  lemma From124()
    ensures FirstOne(Octet(false, false, true, false, false, false, false, false), 2)
  {
  }

  lemma From116()
    ensures FirstOne(Octet(false, false, true, false, false, true, true, false), 10)
  {
    var r := Octet(false, false, false, false, false, false, true, false);
    var next := Octet(false, false, true, false, false, false, false, false);
    From124();
    Leap(r, next, 2);
    Leap(Octet(false, false, true, false, false, true, true, false), r, 6);
  }

  lemma From108()
    ensures FirstOne(Octet(true, false, false, true, true, true, true, false), 18)
  {
    var r := Octet(false, true, true, false, true, false, false, false);
    var next := Octet(false, false, true, false, false, true, true, false);
    From116();
    Leap(r, next, 10);
    Leap(Octet(true, false, false, true, true, true, true, false), r, 14);
  }

  lemma From100()
    ensures FirstOne(Octet(true, false, true, false, false, false, true, false), 26)
  {
    var r := Octet(true, true, true, true, true, false, true, true);
    var next := Octet(true, false, false, true, true, true, true, false);
    From108();
    Leap(r, next, 18);
    Leap(Octet(true, false, true, false, false, false, true, false), r, 22);
  }

  lemma From92()
    ensures FirstOne(Octet(true, true, false, true, false, true, true, false), 34)
  {
    var r := Octet(false, false, true, false, true, true, false, false);
    var next := Octet(true, false, true, false, false, false, true, false);
    From100();
    Leap(r, next, 26);
    Leap(Octet(true, true, false, true, false, true, true, false), r, 30);
  }

  lemma From84()
    ensures FirstOne(Octet(false, true, true, true, true, true, true, true), 42)
  {
    var r := Octet(false, true, true, false, false, true, true, true);
    var next := Octet(true, true, false, true, false, true, true, false);
    From92();
    Leap(r, next, 34);
    Leap(Octet(false, true, true, true, true, true, true, true), r, 38);
  }

  lemma From76()
    ensures FirstOne(Octet(false, true, true, false, false, true, false, false), 50)
  {
    var r := Octet(true, true, true, false, false, true, true, false);
    var next := Octet(false, true, true, true, true, true, true, true);
    From84();
    Leap(r, next, 42);
    Leap(Octet(false, true, true, false, false, true, false, false), r, 46);
  }

  lemma From68()
    ensures FirstOne(Octet(true, false, true, true, true, false, true, false), 58)
  {
    var r := Octet(false, true, false, false, true, false, true, false);
    var next := Octet(false, true, true, false, false, true, false, false);
    From76();
    Leap(r, next, 50);
    Leap(Octet(true, false, true, true, true, false, true, false), r, 54);
  }

  lemma From60()
    ensures FirstOne(Octet(false, true, false, true, false, true, false, false), 66)
  {
    var r := Octet(true, false, true, true, false, true, false, true);
    var next := Octet(true, false, true, true, true, false, true, false);
    From68();
    Leap(r, next, 58);
    Leap(Octet(false, true, false, true, false, true, false, false), r, 62);
  }

  lemma From52()
    ensures FirstOne(Octet(true, false, false, false, true, true, true, true), 74)
  {
    var r := Octet(false, true, false, false, true, false, false, true);
    var next := Octet(false, true, false, true, false, true, false, false);
    From60();
    Leap(r, next, 66);
    Leap(Octet(true, false, false, false, true, true, true, true), r, 70);
  }

  lemma From44()
    ensures FirstOne(Octet(true, false, false, false, false, true, false, true), 82)
  {
    var r := Octet(true, true, true, false, true, false, false, true);
    var next := Octet(true, false, false, false, true, true, true, true);
    From52();
    Leap(r, next, 74);
    Leap(Octet(true, false, false, false, false, true, false, true), r, 78);
  }

  lemma From36()
    ensures FirstOne(Octet(false, true, true, true, true, true, false, false), 90)
  {
    var r := Octet(false, true, false, true, false, true, true, true);
    var next := Octet(true, false, false, false, false, true, false, true);
    From44();
    Leap(r, next, 82);
    Leap(Octet(false, true, true, true, true, true, false, false), r, 86);
  }

  lemma From28()
    ensures FirstOne(Octet(false, false, true, true, true, false, false, false), 98)
  {
    var r := Octet(true, true, false, true, false, false, true, true);
    var next := Octet(false, true, true, true, true, true, false, false);
    From36();
    Leap(r, next, 90);
    Leap(Octet(false, false, true, true, true, false, false, false), r, 94);
  }

  lemma From20()
    ensures FirstOne(Octet(true, false, true, false, false, true, false, false), 106)
  {
    var r := Octet(true, false, false, true, true, false, true, true);
    var next := Octet(false, false, true, true, true, false, false, false);
    From28();
    Leap(r, next, 98);
    Leap(Octet(true, false, true, false, false, true, false, false), r, 102);
  }

  lemma From12()
    ensures FirstOne(Octet(false, true, true, false, true, true, true, false), 114)
  {
    var r := Octet(false, true, false, false, false, true, true, false);
    var next := Octet(true, false, true, false, false, true, false, false);
    From20();
    Leap(r, next, 106);
    Leap(Octet(false, true, true, false, true, true, true, false), r, 110);
  }

  lemma From4()
    ensures FirstOne(Octet(false, true, false, false, false, false, true, true), 122)
  {
    var r := Octet(true, true, true, true, false, true, false, false);
    var next := Octet(false, true, true, false, true, true, true, false);
    From12();
    Leap(r, next, 114);
    Leap(Octet(false, true, false, false, false, false, true, true), r, 118);
  }

  /** After POLY the register comes to ONE after 126 idle steps, and not before. */
  lemma PolyRunsLong()
    ensures FirstOne(POLY, 126)
  {
    From4();
    Leap(POLY, Octet(false, true, false, false, false, false, true, true), 122);
  }

  /** The register comes back from POLY to ONE exactly after 126, 253, 380, ... idle
      steps: the polynomial has period 127. */
  lemma {:induction false} PolyPeriod(n: nat, m: nat)
    requires m == 126
    ensures Idle(POLY, n) == ONE <==> (n + 1) % 127 == 0
    decreases n
  {
    PolyRunsLong();
    if n <= m {
      FirstOneMeans(POLY, m, n);
    } else {
      FirstOneMeans(POLY, m, m);
      IdleLast(POLY, m);
      IdleAdd(POLY, m + 1, n - (m + 1));
      PolyPeriod(n - (m + 1), m);
    }
  }

  /** The wire bits i and i + 1 + |gap| are flipped, and no others: the flips cancel
      iff their distance is a multiple of 127. */
  lemma DoubleSeen(pre: Bits, gap: Bits, post: Bits)
    requires NoFlip(pre) && NoFlip(gap) && NoFlip(post)
    ensures Feed(ZERO, pre + [true] + gap + [true] + post) == ZERO <==> (|gap| + 1) % 127 == 0
  {
    var first, idle := pre + [true], pre + [true] + gap;
    IdleKeepsZero(ZERO, pre);
    FeedOne(ZERO, pre, true);
    assert Feed(ZERO, first) == POLY;
    FeedAppend(ZERO, first, gap);
    IdleIsFeed(POLY, gap);
    PolyPeriod(|gap|, 126);
    FeedOne(ZERO, idle, true);
    CancelsOne(Idle(POLY, |gap|));
    FeedAppend(ZERO, idle + [true], post);
    IdleKeepsZero(Feed(ZERO, idle + [true]), post);
  }

  lemma CancelsOne(r: Octet)
    ensures Step(r, true) == ZERO <==> r == ONE
  {
  }

  // ----- what the receiver may conclude -----

  ghost predicate FlipsTwo(e: Bits, i: nat, j: nat) {
    i < j < |e| && forall k :: 0 <= k < |e| ==> (e[k] <==> k == i || k == j)
  }

  /** `e` are the wire bits that differ between a valid message and the one
      received. The zero check sees every odd number of flips and every burst of
      eight bits; two flips escape it iff their distance is a multiple of 127 bits. */
  lemma ErrorsDetected(sent: seq<Octet>, received: seq<Octet>, e: Bits)
    requires Crc(sent) == ZERO && |sent| == |received|
    requires IsXorOf(e, Wire(sent), Wire(received))
    ensures Crc(received) == Feed(ZERO, e)
    ensures Odd(e) ==> Crc(received) != ZERO
    ensures (exists i: nat :: BurstAt(e, i)) ==> Crc(received) != ZERO
    ensures forall i: nat, j: nat :: FlipsTwo(e, i, j) ==> (Crc(received) == ZERO <==> (j - i) % 127 == 0)
  {
    FeedLinear(ZERO, ZERO, Wire(sent), Wire(received), e);
    CrcParity(e);
    if i: nat :| BurstAt(e, i) {
      BurstSeen(e, i);
    }
    forall i: nat, j: nat | FlipsTwo(e, i, j)
      ensures Crc(received) == ZERO <==> (j - i) % 127 == 0
    {
      TwoFlipsSeen(e, i, j);
    }
  }

  lemma TwoFlipsSeen(e: Bits, i: nat, j: nat)
    requires FlipsTwo(e, i, j)
    ensures Feed(ZERO, e) == ZERO <==> (j - i) % 127 == 0
  {
    var pre, gap, post := e[..i], e[i + 1..j], e[j + 1..];
    assert e == pre + [true] + gap + [true] + post;
    DoubleSeen(pre, gap, post);
  }

  /** In a nine-byte scratchpad no two flips escape. */
  lemma ScratchpadFlips(sent: seq<Octet>, received: seq<Octet>, e: Bits, i: nat, j: nat)
    requires Crc(sent) == ZERO && |sent| == |received| <= 9
    requires IsXorOf(e, Wire(sent), Wire(received)) && FlipsTwo(e, i, j)
    ensures Crc(received) != ZERO
  {
    ErrorsDetected(sent, received, e);
    WireLength(sent);
  }

  lemma {:induction false} WireLength(data: seq<Octet>)
    ensures |Wire(data)| == 8 * |data|
  {
    if data != [] {
      WireLength(data[..|data| - 1]);
    }
  }

  /** Any error confined to one byte is a burst. */
  lemma ByteErrorDetected(m: seq<Octet>, at: nat, wrong: Octet)
    requires at < |m| && Crc(m) == ZERO
    ensures Crc(m[at := wrong]) == ZERO <==> wrong == m[at]
  {
    var pre, post := m[..at], m[at + 1..];
    assert m == pre + [m[at]] + post;
    assert m[at := wrong] == pre + [wrong] + post;
    SplitByte(pre, m[at], post);
    SplitByte(pre, wrong, post);
    var r := Feed(ZERO, Wire(pre));
    Step8Injective(r, m[at], wrong);
    FeedBytesInjective(Step8(r, m[at]), Step8(r, wrong), post);
  }

  lemma Step8Injective(r: Octet, x: Octet, y: Octet)
    ensures Step8(r, x) == Step8(r, y) <==> x == y
  {
    ByteStepInjective(r, r, x, y);
  }

  /** Two registers agree after a byte each iff they agreed XORed with it. */
  lemma ByteStepInjective(r: Octet, s: Octet, x: Octet, y: Octet)
    ensures Step8(r, x) == Step8(s, y) <==> Xor(r, x) == Xor(s, y)
  {
    Step8Sum(r, x);
    Step8Sum(s, y);
    StateInjective(Xor(r, x), Xor(s, y), ZERO);
  }

  lemma StepSum(r: Octet, x: Octet)
    ensures Step(Xor(r, x), false) == Xor(Step(r, x.b0), Shr(x))
  {
  }

  lemma StepsSum(r: Octet, x: Octet)
    ensures Step(Step(Xor(r, x), false), false) == Xor(Step(Step(r, x.b0), x.b1), Shr(Shr(x)))
  {
    StepSum(r, x);
    StepSum(Step(r, x.b0), Shr(x));
  }

  /** The bits of a nibble, two at a time. */
  lemma HalfSteps(r: Octet, x: Octet)
    ensures Step4(r, x) == Step(Step(Step(Step(r, x.b0), x.b1), Shr(Shr(x)).b0), Shr(Shr(x)).b1)
    ensures Shr4(x) == Shr(Shr(Shr(Shr(x))))
  {
  }

  lemma IdleHalf(r: Octet)
    ensures Step4(r, ZERO) == Step(Step(Step(Step(r, false), false), false), false)
  {
  }

  lemma FourSum(r: Octet, x: Octet)
    ensures Step(Step(Step(Step(Xor(r, x), false), false), false), false)
         == Xor(Step(Step(Step(Step(r, x.b0), x.b1), Shr(Shr(x)).b0), Shr(Shr(x)).b1), Shr(Shr(Shr(Shr(x)))))
  {
    StepsSum(r, x);
    StepsSum(Step(Step(r, x.b0), x.b1), Shr(Shr(x)));
  }

  lemma HalfSum(r: Octet, x: Octet)
    ensures Step4(Xor(r, x), ZERO) == Xor(Step4(r, x), Shr4(x))
  {
    IdleHalf(Xor(r, x));
    FourSum(r, x);
    HalfSteps(r, x);
  }

  /** Feeding a byte is XORing it in and running idle. */
  lemma Step8Sum(r: Octet, x: Octet)
    ensures Step8(r, x) == Step8(Xor(r, x), ZERO)
  {
    HalfSum(r, x);
    HalfSum(Step4(r, x), Shr4(x));
    XorZero(Step8(r, x));
  }

  lemma XorZero(x: Octet)
    ensures Xor(x, ZERO) == x
  {
  }

  lemma {:induction false} FeedBytesInjective(r: Octet, s: Octet, data: seq<Octet>)
    ensures Feed(r, Wire(data)) == Feed(s, Wire(data)) <==> r == s
  {
    if data != [] {
      var init, last := data[..|data| - 1], data[|data| - 1];
      FeedBytesInjective(r, s, init);
      FeedByte(r, Wire(init), last);
      FeedByte(s, Wire(init), last);
      StateInjective(Feed(r, Wire(init)), Feed(s, Wire(init)), last);
    }
  }

  lemma StepInjective(r: Octet, s: Octet, bit: bool)
    ensures Step(r, bit) == Step(s, bit) <==> r == s
  {
  }

  lemma HalfInjective(r: Octet, s: Octet, x: Octet)
    ensures Step4(r, x) == Step4(s, x) <==> r == s
  {
    var r1, s1 := Step(r, x.b0), Step(s, x.b0);
    var r2, s2 := Step(r1, x.b1), Step(s1, x.b1);
    StepInjective(r, s, x.b0);
    StepInjective(r1, s1, x.b1);
    StepInjective(r2, s2, x.b2);
    StepInjective(Step(r2, x.b2), Step(s2, x.b2), x.b3);
  }

  lemma StateInjective(r: Octet, s: Octet, x: Octet)
    ensures Step8(r, x) == Step8(s, x) <==> r == s
  {
    HalfInjective(r, s, x);
    HalfInjective(Step4(r, x), Step4(s, x), Shr4(x));
  }

  lemma {:induction false} SplitByte(pre: seq<Octet>, x: Octet, post: seq<Octet>)
    ensures Crc(pre + [x] + post) == Feed(Step8(Feed(ZERO, Wire(pre)), x), Wire(post))
    decreases |post|
  {
    if post == [] {
      assert pre + [x] + post == pre + [x];
      assert (pre + [x])[..|pre|] == pre;
      FeedByte(ZERO, Wire(pre), x);
    } else {
      var init, last := post[..|post| - 1], post[|post| - 1];
      assert (pre + [x] + post)[..|pre + [x] + post| - 1] == pre + [x] + init;
      SplitByte(pre, x, init);
      FeedByte(ZERO, Wire(pre + [x] + init), last);
      FeedByte(Step8(Feed(ZERO, Wire(pre)), x), Wire(init), last);
    }
  }

  // ----- a known message -----

  /** The octet of a number. */
  function OctetOf(n: nat): Octet {
    Octet(n % 2 == 1, n / 2 % 2 == 1, n / 4 % 2 == 1, n / 8 % 2 == 1,
          n / 16 % 2 == 1, n / 32 % 2 == 1, n / 64 % 2 == 1, n / 128 % 2 == 1)
  }

  /** The characters 1 to 9. */
  ghost predicate Digits(m: seq<Octet>) {
    |m| == 9 && forall i :: 0 <= i < 9 ==> m[i] == OctetOf(0x31 + i)
  }

  lemma NextDigit(m: seq<Octet>, n: nat, r: Octet, x: Octet, mid: Octet, out: Octet)
    requires n < |m| && Crc(m[..n]) == r && m[n] == x
    requires Step4(r, x) == mid && Step4(mid, Shr4(x)) == out
    ensures Crc(m[..n + 1]) == out
  {
    assert m[..n + 1][..n] == m[..n];
    FeedByte(ZERO, Wire(m[..n]), x);
  }

  lemma Digits1(m: seq<Octet>)
    requires Digits(m)
    ensures Crc(m[..1]) == Octet(false, false, false, false, false, true, true, true)
  {
    assert m[0] == OctetOf(0x31);
    NextDigit(m, 0, ZERO,
              Octet(true, false, false, false, true, true, false, false),
              Octet(true, false, true, true, true, false, false, true),
              Octet(false, false, false, false, false, true, true, true));
  }

  lemma Digits2(m: seq<Octet>)
    requires Digits(m)
    ensures Crc(m[..2]) == Octet(true, true, false, true, false, true, true, true)
  {
    Digits1(m);
    assert m[1] == OctetOf(0x32);
    NextDigit(m, 1, Octet(false, false, false, false, false, true, true, true),
              Octet(false, true, false, false, true, true, false, false),
              Octet(true, false, true, true, false, true, false, false),
              Octet(true, true, false, true, false, true, true, true));
  }

  lemma Digits3(m: seq<Octet>)
    requires Digits(m)
    ensures Crc(m[..3]) == Octet(true, false, true, false, true, false, false, true)
  {
    Digits2(m);
    assert m[2] == OctetOf(0x33);
    NextDigit(m, 2, Octet(true, true, false, true, false, true, true, true),
              Octet(true, true, false, false, true, true, false, false),
              Octet(false, true, false, false, false, false, false, true),
              Octet(true, false, true, false, true, false, false, true));
  }

  lemma Digits4(m: seq<Octet>)
    requires Digits(m)
    ensures Crc(m[..4]) == Octet(true, false, false, false, true, true, true, true)
  {
    Digits3(m);
    assert m[3] == OctetOf(0x34);
    NextDigit(m, 3, Octet(true, false, true, false, true, false, false, true),
              Octet(false, false, true, false, true, true, false, false),
              Octet(false, false, true, false, true, false, false, true),
              Octet(true, false, false, false, true, true, true, true));
  }

  lemma Digits5(m: seq<Octet>)
    requires Digits(m)
    ensures Crc(m[..5]) == Octet(true, true, false, true, false, true, false, true)
  {
    Digits4(m);
    assert m[4] == OctetOf(0x35);
    NextDigit(m, 4, Octet(true, false, false, false, true, true, true, true),
              Octet(true, false, true, false, true, true, false, false),
              Octet(true, false, false, true, false, false, true, false),
              Octet(true, true, false, true, false, true, false, true));
  }

  lemma Digits6(m: seq<Octet>)
    requires Digits(m)
    ensures Crc(m[..6]) == Octet(false, false, true, true, false, true, true, true)
  {
    Digits5(m);
    assert m[5] == OctetOf(0x36);
    NextDigit(m, 5, Octet(true, true, false, true, false, true, false, true),
              Octet(false, true, true, false, true, true, false, false),
              Octet(true, false, true, true, true, false, true, false),
              Octet(false, false, true, true, false, true, true, true));
  }

  lemma Digits7(m: seq<Octet>)
    requires Digits(m)
    ensures Crc(m[..7]) == Octet(true, true, true, false, true, true, true, false)
  {
    Digits6(m);
    assert m[6] == OctetOf(0x37);
    NextDigit(m, 6, Octet(false, false, true, true, false, true, true, true),
              Octet(true, true, true, false, true, true, false, false),
              Octet(false, false, true, true, true, true, false, false),
              Octet(true, true, true, false, true, true, true, false));
  }

  lemma Digits8(m: seq<Octet>)
    requires Digits(m)
    ensures Crc(m[..8]) == Octet(true, true, true, false, false, false, false, false)
  {
    Digits7(m);
    assert m[7] == OctetOf(0x38);
    NextDigit(m, 7, Octet(true, true, true, false, true, true, true, false),
              Octet(false, false, false, true, true, true, false, false),
              Octet(true, true, false, false, true, true, true, false),
              Octet(true, true, true, false, false, false, false, false));
  }

  lemma Digits9(m: seq<Octet>)
    requires Digits(m)
    ensures Crc(m[..9]) == Octet(true, false, false, false, false, true, false, true)
  {
    Digits8(m);
    assert m[8] == OctetOf(0x39);
    NextDigit(m, 8, Octet(true, true, true, false, false, false, false, false),
              Octet(true, false, false, true, true, true, false, false),
              Octet(true, false, false, true, false, true, true, true),
              Octet(true, false, false, false, false, true, false, true));
  }

  /** The check value of the 1-Wire CRC: over the characters 1 to 9 it is 0xA1. */
  lemma CheckValue(m: seq<Octet>)
    requires Digits(m)
    ensures Crc(m) == OctetOf(0xA1)
  {
    Digits9(m);
    assert m[..9] == m;
    assert OctetOf(0xA1) == Octet(true, false, false, false, false, true, false, true);
  }
}
