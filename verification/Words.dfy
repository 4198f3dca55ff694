/** Machine words: C's unsigned wrap-around and bitwise `&` written out on natural numbers. */
module Words {

  const U16_MOD: nat := 0x1_0000
  const U32_MOD: nat := 0x1_0000_0000

  type U16 = x: int | 0 <= x < 0x1_0000
  type U32 = x: int | 0 <= x < 0x1_0000_0000

  type Byte = bv8

  function One(b: bool): nat {
    if b then 1 else 0
  }

  function Inc16(x: U16): U16 {
    (x + 1) % U16_MOD
  }

  function Add32(x: U32, n: nat): U32 {
    (x + n) % U32_MOD
  }

  function Sub32(x: U32, y: U32): U32 {
    (x - y) % U32_MOD
  }

  function Min(a: nat, b: nat): nat {
    if a < b then a else b
  }

  function Pow2(k: nat): (r: nat)
    ensures r >= 1
  {
    if k == 0 then 1 else 2 * Pow2(k - 1)
  }

  /** Bitwise conjunction, one bit at a time from the least significant end. */
  function And(x: nat, y: nat): nat
    decreases x
  {
    if x == 0 || y == 0 then 0
    else (if x % 2 == 1 && y % 2 == 1 then 1 else 0) + 2 * And(x / 2, y / 2)
  }

  ghost predicate IsPow2(x: nat) {
    exists k: nat :: x == Pow2(k)
  }

  /** Masking with 2^k - 1 is the remainder modulo 2^k. */
  lemma {:induction false} AndMask(x: nat, k: nat)
    ensures And(x, Pow2(k) - 1) == x % Pow2(k)
    decreases k
  {
    if k > 0 {
      var p := Pow2(k - 1);
      AndMask(x / 2, k - 1);
      assert (2 * p - 1) / 2 == p - 1 && (2 * p - 1) % 2 == 1;
      HalfMod(x, p);
      if x == 0 {
        assert x % (2 * p) == 0;
      } else {
        assert And(x, 2 * p - 1) == x % 2 + 2 * And(x / 2, p - 1);
      }
    }
  }

  lemma HalfMod(x: nat, p: nat)
    requires p > 0
    ensures x % (2 * p) == x % 2 + 2 * (x / 2 % p)
  {
    var q, r := x / 2 / p, x / 2 % p;
    assert x / 2 == q * p + r;
    assert x == q * (2 * p) + (2 * r + x % 2) by {
      assert x == 2 * (x / 2) + x % 2;
      assert 2 * (q * p) == q * (2 * p);
    }
    ModUnique(x, 2 * p, q, 2 * r + x % 2);
  }

  lemma {:induction false} MulLe(a: int, b: int, m: nat)
    requires a < b
    ensures a * m + m <= b * m
    decreases b - a
  {
    if a + 1 < b {
      MulLe(a, b - 1, m);
    }
    assert b * m == (b - 1) * m + m;
  }

  lemma ModUnique(x: int, m: nat, q: int, r: nat)
    requires x == q * m + r && r < m
    ensures x % m == r && x / m == q
  {
    var q' := x / m;
    assert x == q' * m + x % m;
    if q < q' {
      MulLe(q, q', m);
    } else if q' < q {
      MulLe(q', q, m);
    }
  }

  /** The classical test `x != 0 && (x & (x - 1)) == 0` accepts the powers of two and nothing else. */
  lemma {:induction false} Pow2Test(x: nat)
    requires x > 0
    ensures And(x, x - 1) == 0 <==> IsPow2(x)
    decreases x
  {
    if x == 1 {
      assert x == Pow2(0);
    } else if x % 2 == 0 {
      var y := x / 2;
      assert (x - 1) / 2 == y - 1 && (x - 1) % 2 == 1;
      Pow2Test(y);
      if k: nat :| y == Pow2(k) {
        assert x == Pow2(k + 1);
      }
      if k: nat :| x == Pow2(k) {
        assert k > 0 && y == Pow2(k - 1);
      }
    } else {
      var y := x / 2;
      assert (x - 1) / 2 == y && (x - 1) % 2 == 0;
      assert And(x, x - 1) == 2 * And(y, y);
      AndSelf(y);
      forall k: nat
        ensures x != Pow2(k)
      {
        if k > 0 {
          assert Pow2(k) % 2 == 0;
        }
      }
    }
  }

  lemma {:induction false} AndSelf(y: nat)
    ensures And(y, y) == y
  {
    if y > 0 {
      AndSelf(y / 2);
    }
  }

  /** A power of two that fits a 32-bit word divides 2^32. */
  lemma {:induction false} Pow2Split(j: nat, k: nat)
    ensures Pow2(j + k) == Pow2(j) * Pow2(k)
  {
    if j > 0 {
      Pow2Split(j - 1, k);
      assert j + k - 1 == (j - 1) + k;
      assert 2 * (Pow2(j - 1) * Pow2(k)) == (2 * Pow2(j - 1)) * Pow2(k);
    }
  }

  lemma {:induction false} Pow2Mono(j: nat, k: nat)
    requires j <= k
    ensures Pow2(j) <= Pow2(k)
  {
    if j < k {
      Pow2Mono(j, k - 1);
    }
  }

  lemma Pow2Is32()
    ensures Pow2(32) == U32_MOD
  {
    assert Pow2(8) == 0x100;
    Pow2Split(8, 8);
    Pow2Split(16, 16);
  }

  lemma ModMod(x: nat, c: nat, m: nat)
    requires c > 0 && m > 0
    ensures c * m > 0 && x % (c * m) % c == x % c
  {
    MulLe(0, m, c);
    assert m * c == c * m;
    var q, r := x / (c * m), x % (c * m);
    assert x == q * (c * m) + r;
    assert q * (c * m) == (q * m) * c by { Assoc(q, c, m); }
    var rq := r / c;
    assert r == rq * c + r % c;
    assert (q * m + rq) * c == (q * m) * c + rq * c;
    ModUnique(x, c, q * m + rq, r % c);
  }

  lemma Assoc(a: int, b: int, c: int)
    ensures a * (b * c) == (a * c) * b
  {
  }

  /** Reducing modulo 2^32 first does not change the offset in a power-of-two buffer. */
  lemma WrapOffset(total: nat, cap: nat)
    requires IsPow2(cap) && cap < U32_MOD
    ensures total % U32_MOD % cap == total % cap
    ensures And(total % U32_MOD, cap - 1) == total % cap
  {
    var k: nat :| cap == Pow2(k);
    Pow2Is32();
    if k >= 32 {
      Pow2Mono(32, k);
      assert false;
    }
    var m := Pow2(32 - k);
    Pow2Split(k, 32 - k);
    ModMod(total, cap, m);
    var r := total % U32_MOD;
    AndMask(r, k);
  }

  /** Unsigned subtraction recovers the true distance of two running totals. */
  lemma WrapDistance(later: nat, earlier: nat)
    requires earlier <= later < earlier + U32_MOD
    ensures Sub32(later % U32_MOD, earlier % U32_MOD) == later - earlier
  {
  }

  /** Two indices less than one capacity apart land on different cells. */
  lemma CellsDiffer(a: nat, b: nat, cap: nat)
    requires a < b < a + cap
    ensures a % cap != b % cap
  {
    var qa, qb := a / cap, b / cap;
    assert a == qa * cap + a % cap && b == qb * cap + b % cap;
    if qa < qb {
      MulLe(qa, qb, cap);
    } else if qb < qa {
      MulLe(qb, qa, cap);
    }
  }

  /** Inside one contiguous run the cell index advances with the total. */
  lemma CellRun(start: nat, i: nat, cap: nat)
    requires cap > 0 && start % cap + i < cap
    ensures (start + i) % cap == start % cap + i
  {
    ModUnique(start + i, cap, start / cap, start % cap + i);
  }

  /** A run that reaches the end of the buffer leaves the next one at its start. */
  lemma RunEnd(total: nat, n: nat, cap: nat)
    requires cap > 0 && total % cap + n <= cap
    ensures (total + n) % cap == if total % cap + n == cap then 0 else total % cap + n
  {
    if total % cap + n == cap {
      ModUnique(total + n, cap, total / cap + 1, 0);
    } else {
      CellRun(total, n, cap);
    }
  }
}
