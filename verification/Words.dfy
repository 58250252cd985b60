/** Unsigned 32-bit words and bytes as the C sources use them: integers reduced modulo
    2^32, and the bitwise operators defined bit by bit. */
module Words {
  const TWO32: nat := 0x1_0000_0000
  const UINT32_MAX: nat := 0xFFFF_FFFF

  type byte = x: int | 0 <= x < 256
  type u32 = x: int | 0 <= x < 0x1_0000_0000

  /** Unsigned wrap-around. */
  function U32(x: int): u32 { x % TWO32 }

  function Pow2(k: nat): (p: nat)
    ensures p >= 1
  {
    if k == 0 then 1 else 2 * Pow2(k - 1)
  }

  ghost predicate IsPow2(n: nat) { exists k: nat :: n == Pow2(k) }

  /** A ring size: a power of two that a u32 can hold. */
  ghost predicate RingSize(n: nat) { exists k: nat :: k < 32 && n == Pow2(k) }

  function And(x: nat, y: nat): (r: nat)
    ensures r <= x && r <= y
    decreases x
  {
    if x == 0 then 0 else (if x % 2 == 1 && y % 2 == 1 then 1 else 0) + 2 * And(x / 2, y / 2)
  }

  function Xor(x: nat, y: nat): nat
    decreases x + y
  {
    if x == 0 && y == 0 then 0 else (if x % 2 != y % 2 then 1 else 0) + 2 * Xor(x / 2, y / 2)
  }

  lemma NoWrap(x: nat)
    requires x < TWO32
    ensures U32(x) == x
  {
  }

  // ---- masks ----

  lemma DivideOut(x: nat, m: nat)
    requires m > 0
    ensures x % (2 * m) == x % 2 + 2 * ((x / 2) % m)
  {
    var q, r := (x / 2) / m, (x / 2) % m;
    assert x == 2 * (q * m + r) + x % 2;
    assert x == q * (2 * m) + (2 * r + x % 2);
    ModUnique(x, 2 * m, q, 2 * r + x % 2);
  }

  lemma AtLeastOneLap(d: int, m: int)
    requires m >= 0
    ensures d >= 1 ==> d * m >= m
    ensures d <= -1 ==> d * m <= -m
  {
    if d >= 1 { assert (d - 1) * m >= 0; }
    if d <= -1 { assert (-1 - d) * m >= 0; }
  }

  /** A quotient and an in-range remainder determine `/` and `%`. */
  lemma ModUnique(x: int, m: int, q: int, r: int)
    requires m > 0 && 0 <= r < m && x == q * m + r
    ensures x % m == r && x / m == q
  {
    var d := q - x / m;
    assert d * m == x % m - r;
    AtLeastOneLap(d, m);
  }

  lemma AndUnfold(x: nat, y: nat)
    ensures And(x, y) == (if x % 2 == 1 && y % 2 == 1 then 1 else 0) + 2 * And(x / 2, y / 2)
  {
  }

  lemma LowBitsStep(x: nat, h: nat)
    requires h >= 1 && And(x / 2, h - 1) == (x / 2) % h
    ensures And(x, 2 * h - 1) == x % (2 * h)
  {
    hide And;
    assert (2 * h - 1) % 2 == 1 && (2 * h - 1) / 2 == h - 1;
    DivideOut(x, h);
    AndUnfold(x, 2 * h - 1);
  }

  lemma {:induction false} AndLowBits(x: nat, k: nat)
    ensures And(x, Pow2(k) - 1) == x % Pow2(k)
    decreases x
  {
    hide And;
    if x == 0 {
      ModUnique(0, Pow2(k), 0, 0);
    } else if k != 0 {
      AndLowBits(x / 2, k - 1);
      LowBitsStep(x, Pow2(k - 1));
    }
  }

  /** A zero low bit in the mask clears the low bit of the word. */
  lemma AndEven(x: nat, y: nat)
    ensures And(x, 2 * y) == 2 * And(x / 2, y)
  {
    hide And;
    AndUnfold(x, 2 * y);
  }

  /** `x & ~63u`. */
  lemma ClearLow6(x: u32)
    ensures And(x, UINT32_MAX - 63) == x - x % 64
  {
    hide And, Pow2;
    var y := 0x3FF_FFFF;
    var x3 := And8(x, 8 * y);
    var x6 := And8(x3, y);
    AndWhole(x6);
    ModUnique(x, 64, x6, x - 64 * x6);
  }

  /** Three zero low bits in the mask. */
  lemma And8(x: nat, y: nat) returns (q: nat)
    ensures And(x, 8 * y) == 8 * And(q, y) && 0 <= x - 8 * q < 8
  {
    hide And;
    var x1 := x / 2;
    var x2 := x1 / 2;
    AndEven(x, 4 * y);
    AndEven(x1, 2 * y);
    AndEven(x2, y);
    q := x2 / 2;
  }

  lemma AndWhole(z: nat)
    requires z <= 0x3FF_FFFF
    ensures And(z, 0x3FF_FFFF) == z
  {
    assert Pow2(26) == 0x400_0000 by {
      Pow2Add(8, 18);
      Pow2Add(8, 10);
      assert Pow2(8) == 256 && Pow2(10) == 1024;
    }
    AndLowBits(z, 26);
    ModUnique(z, 0x400_0000, 0, z);
  }

  lemma {:induction false} Pow2Add(a: nat, b: nat)
    ensures Pow2(a + b) == Pow2(a) * Pow2(b)
  {
    if a > 0 { Pow2Add(a - 1, b); }
  }

  lemma {:induction false} Pow2Monotone(a: nat, b: nat)
    requires a <= b
    ensures Pow2(a) <= Pow2(b)
  {
    if a < b { Pow2Monotone(a, b - 1); }
  }

  lemma Pow2At32()
    ensures Pow2(8) == 256 && Pow2(12) == 4096 && Pow2(16) == 65536
    ensures Pow2(30) == 0x4000_0000 && Pow2(31) == 0x8000_0000 && Pow2(32) == TWO32
  {
    assert Pow2(8) == 256;
    Pow2Add(8, 8);
    Pow2Add(16, 16);
    assert Pow2(12) == 16 * Pow2(8);
    assert Pow2(32) == 2 * Pow2(31);
    assert Pow2(31) == 2 * Pow2(30);
  }

  lemma ModAddMultiple(x: int, c: int, m: int)
    requires m > 0
    ensures (x + c * m) % m == x % m
  {
    ModUnique(x + c * m, m, x / m + c, x % m);
  }

  /** Reducing modulo a multiple of `size` first does not change the residue. */
  lemma ModOfMod(x: int, size: nat, f: nat)
    requires size > 0 && f > 0
    ensures (x % (f * size)) % size == x % size
  {
    var c := f * (x / (f * size));
    assert x == x % (f * size) + c * size by {
      assert c * size == (x / (f * size)) * (f * size);
    }
    ModAddMultiple(x % (f * size), c, size);
  }

  lemma Wraps(x: int)
    ensures U32(x) == x % TWO32
  {
  }

  /** Wrapping to 32 bits and masking is reduction modulo the ring size. */
  lemma WrapThenMask(x: int, size: nat)
    requires RingSize(size)
    ensures size > 0 && U32(x) % size == x % size
    ensures And(U32(x), size - 1) == x % size
  {
    hide And, Pow2, U32;
    var k: nat :| k < 32 && size == Pow2(k);
    var f := Pow2(32 - k);
    AndLowBits(U32(x), k);
    assert f * size == TWO32 by { Pow2At32(); Pow2Add(32 - k, k); }
    ModOfMod(x, size, f);
    Wraps(x);
  }

  lemma RingSizeBounds(size: nat)
    requires RingSize(size)
    ensures 1 <= size <= 0x8000_0000
  {
    var k: nat :| k < 32 && size == Pow2(k);
    Pow2Monotone(k, 31);
    Pow2At32();
  }

  // ---- positions in a ring ----

  /** Slot of a running (never wrapping) stream position or of an index plus an offset:
      `x & mask` on a wrapped word. */
  function Slot(x: int, size: nat): (r: u32)
    requires size > 0
    ensures r < size
  {
    And(U32(x), size - 1)
  }

  lemma SlotIsMod(x: int, size: nat)
    requires RingSize(size)
    ensures size > 0 && Slot(x, size) == x % size && 0 <= Slot(x, size) < size
  {
    WrapThenMask(x, size);
  }

  lemma ModAdd(x: int, y: int, m: int)
    requires m > 0
    ensures (x % m + y) % m == (x + y) % m
  {
    ModAddMultiple(x % m + y, x / m, m);
    assert x % m + y + (x / m) * m == x + y;
  }

  /** Two positions less than one lap apart share a slot only when they are equal. */
  lemma SameSlot(a: int, b: int, m: int)
    requires m > 0 && a <= b < a + m && a % m == b % m
    ensures a == b
  {
    var d := b / m - a / m;
    assert b - a == d * m;
    AtLeastOneLap(d, m);
  }

  /** Masked index difference recovers the true distance of two running counters. */
  lemma MaskedDistance(head: nat, tail: nat, size: nat)
    requires RingSize(size) && head <= tail < head + size
    ensures size > 0 && And(U32(tail % size - head % size), size - 1) == tail - head
  {
    var d := tail % size - head % size;
    WrapThenMask(d, size);
    RingSizeBounds(size);
    assert d % size == tail - head by { ModDistance(head, tail, size); }
  }

  lemma ModDistance(head: nat, tail: nat, size: nat)
    requires size > 0 && head <= tail < head + size
    ensures (tail % size - head % size) % size == tail - head
  {
    var c := head / size - tail / size;
    assert c * size == (head / size) * size - (tail / size) * size;
    assert tail % size - head % size == (tail - head) + c * size;
    ModAddMultiple(tail - head, c, size);
    ModUnique(tail - head, size, 0, tail - head);
  }

  // ---- the power-of-two test ----

  lemma HalvePow2(n: nat)
    requires n > 0 && n % 2 == 0
    ensures IsPow2(n) <==> IsPow2(n / 2)
  {
    if IsPow2(n) {
      var k: nat :| n == Pow2(k);
      assert k > 0;
      assert n / 2 == Pow2(k - 1);
    }
    if IsPow2(n / 2) {
      var k: nat :| n / 2 == Pow2(k);
      assert n == Pow2(k + 1);
    }
  }

  lemma OddNotPow2(n: nat)
    requires n % 2 == 1 && n > 1
    ensures !IsPow2(n)
  {
    forall k: nat ensures n != Pow2(k) {
      if k > 0 { assert Pow2(k) == 2 * Pow2(k - 1); }
    }
  }

  lemma {:induction false} AndSelf(x: nat)
    ensures And(x, x) == x
  {
    if x > 0 { AndSelf(x / 2); }
  }

  /** `n & (n - 1)` vanishes on a non-zero word exactly for powers of two. */
  lemma {:induction false} PowerOfTwoTest(n: nat)
    requires n > 0
    ensures And(n, n - 1) == 0 <==> IsPow2(n)
  {
    if n % 2 == 0 {
      assert (n - 1) % 2 == 1 && (n - 1) / 2 == n / 2 - 1;
      PowerOfTwoTest(n / 2);
      HalvePow2(n);
    } else {
      assert (n - 1) / 2 == n / 2;
      AndSelf(n / 2);
      if n == 1 { assert n == Pow2(0); }
      else { OddNotPow2(n); }
    }
  }
}
