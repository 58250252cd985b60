/** hash_handle of resource_tracker.c. */
module Hash {
  import opened Words

  const TABLE: nat := 4096
  const MULTIPLIER: nat := 0x45d9f3b
  const INVERSE: nat := 0x119de1f3
  const QUOTIENT: nat := 5040344          // MULTIPLIER * INVERSE == 1 + QUOTIENT * 2^32

  // ---- exclusive or ----

  lemma {:induction false} XorZero(b: nat)
    ensures Xor(0, b) == b
  {
    if b > 0 { XorZero(b / 2); }
  }

  lemma {:induction false} XorCancel(a: nat, b: nat)
    ensures Xor(a, Xor(a, b)) == b
    decreases a + b
  {
    if a > 0 || b > 0 { XorCancel(a / 2, b / 2); }
  }

  lemma XorUnfold(a: nat, b: nat)
    ensures Xor(a, b) == (if a % 2 != b % 2 then 1 else 0) + 2 * Xor(a / 2, b / 2)
  {
  }

  /** Xor with a k-bit value stays below bit k. */
  lemma {:induction false} XorLow(a: nat, hi: nat, lo: nat, k: nat)
    requires a < Pow2(k) && lo < Pow2(k)
    ensures Xor(a, hi * Pow2(k) + lo) == hi * Pow2(k) + Xor(a, lo)
    ensures Xor(a, lo) < Pow2(k)
    decreases k
  {
    hide Xor;
    if k == 0 {
      XorZero(hi);
      XorZero(0);
    } else {
      var m := Pow2(k - 1);
      XorLow(a / 2, hi, lo / 2, k - 1);
      Halve(hi, lo, m);
      XorUnfold(a, hi * Pow2(k) + lo);
      XorUnfold(a, lo);
    }
  }

  lemma Halve(hi: nat, lo: nat, m: nat)
    ensures (hi * (2 * m) + lo) / 2 == hi * m + lo / 2
    ensures (hi * (2 * m) + lo) % 2 == lo % 2
    ensures hi * (2 * m) == 2 * (hi * m)
  {
    assert hi * (2 * m) == 2 * (hi * m);
  }

  // ---- the mix ----

  lemma XorShiftParts(x: u32)
    ensures Xor(x / 65536, x) == (x / 65536) * 65536 + Xor(x / 65536, x % 65536)
    ensures Xor(x / 65536, x % 65536) < 65536 && Xor(x / 65536, x) < TWO32
  {
    Pow2At32();
    XorLow(x / 65536, x / 65536, x % 65536, 16);
  }

  /** `(h >> 16) ^ h`. */
  function XorShift(x: u32): (r: u32)
  {
    XorShiftParts(x);
    Xor(x / 65536, x)
  }

  lemma XorShiftSelfInverse(x: u32)
    ensures XorShift(XorShift(x)) == x
  {
    var hi, lo := x / 65536, x % 65536;
    XorShiftParts(x);
    var y := XorShift(x);
    ModUnique(y, 65536, hi, Xor(hi, lo));
    XorShiftParts(y);
    XorCancel(hi, lo);
  }

  /** Unsigned 32-bit multiplication, by shifting and adding. */
  function Times(x: nat, c: nat): u32
    decreases x
  {
    if x == 0 then 0 else U32(2 * Times(x / 2, c) + (if x % 2 == 1 then c else 0))
  }

  lemma {:induction false} TimesIsProduct(x: nat, c: nat)
    ensures Times(x, c) == (x * c) % TWO32
  {
    if x > 0 {
      TimesIsProduct(x / 2, c);
      var y, w := x / 2, Times(x / 2, c);
      var q := (y * c) / TWO32;
      var r := if x % 2 == 1 then c else 0;
      Halved(x, c);
      assert x * c == (2 * w + r) + (2 * q) * TWO32;
      ModAddMultiple(2 * w + r, 2 * q, TWO32);
    }
  }

  lemma Halved(x: nat, c: nat)
    ensures x * c == 2 * (x / 2 * c) + (if x % 2 == 1 then c else 0)
  {
    var y := x / 2;
    if x % 2 == 1 { assert x == 2 * y + 1; } else { assert x == 2 * y; }
  }

  /** Multiplying by `c` and then by its inverse modulo 2^32. */
  lemma TimesInverse(x: u32, c: nat, d: nat, q: nat)
    requires c * d == 1 + q * TWO32
    ensures Times(Times(x, c), d) == x
  {
    var m := Times(x, c);
    TimesIsProduct(x, c);
    TimesIsProduct(m, d);
    Cancels(x, c, d, q, m);
  }

  lemma Cancels(x: nat, c: nat, d: nat, q: nat, m: nat)
    requires c * d == 1 + q * TWO32 && m == (x * c) % TWO32 && x < TWO32
    ensures (m * d) % TWO32 == x
  {
    var w := (x * c) / TWO32;
    Regroup(x, c, d, q, m, w, TWO32);
    ModAddMultiple(x, x * q - w * d, TWO32);
    ModUnique(x, TWO32, 0, x);
  }

  lemma Regroup(x: int, c: int, d: int, q: int, m: int, w: int, n: int)
    requires c * d == 1 + q * n && x * c == w * n + m
    ensures m * d == x + (x * q - w * d) * n
  {
    calc {
      m * d;
      (x * c - w * n) * d;
      (x * c) * d - (w * n) * d;
      x * (c * d) - (w * n) * d;
      x * (1 + q * n) - (w * n) * d;
      x + x * (q * n) - (w * n) * d;
      { assert x * (q * n) == (x * q) * n; assert (w * n) * d == (w * d) * n; }
      x + ((x * q) * n - (w * d) * n);
      x + (x * q - w * d) * n;
    }
  }

  /** hash_handle before its final mask. */
  function Mix(handle: u32): u32 {
    XorShift(Times(XorShift(Times(XorShift(handle), MULTIPLIER)), MULTIPLIER))
  }

  function Unmix(h: u32): u32 {
    XorShift(Times(XorShift(Times(XorShift(h), INVERSE)), INVERSE))
  }

  /** The mix is a permutation of the 32-bit words: no two handles collide before the mask. */
  lemma MixIsAPermutation(h: u32)
    ensures Unmix(Mix(h)) == h && Mix(Unmix(h)) == h
  {
    hide XorShift, Times;
    MixInverts(h, MULTIPLIER, INVERSE);
    MixInverts(h, INVERSE, MULTIPLIER);
  }

  lemma MixInverts(h: u32, c: nat, d: nat)
    requires c * d == 1 + QUOTIENT * TWO32
    ensures XorShift(Times(XorShift(Times(XorShift(
              XorShift(Times(XorShift(Times(XorShift(h), c)), c))), d)), d)) == h
  {
    hide XorShift, Times;
    var a := Times(XorShift(h), c);
    var b := Times(XorShift(a), c);
    XorShiftSelfInverse(b);
    TimesInverse(XorShift(a), c, d, QUOTIENT);
    XorShiftSelfInverse(a);
    TimesInverse(XorShift(h), c, d, QUOTIENT);
    XorShiftSelfInverse(h);
  }

  // ---- slots ----

  /** hash_handle. */
  function HashHandle(handle: u32): (slot: nat)
    ensures slot < TABLE
  {
    And(Mix(handle), TABLE - 1)
  }

  /** The slot of probe number `p`: `(hash + probe) & (size - 1)`. */
  function Probe(hash: nat, p: nat): (slot: nat)
    ensures slot < TABLE
  {
    And(U32(hash + p), TABLE - 1)
  }

  /** The one probe number below the table size that reaches `slot`. */
  function ProbeOf(hash: nat, slot: nat): (p: nat)
    ensures p < TABLE
  {
    (slot - hash) % TABLE
  }

  lemma ProbeIsMod(hash: nat, p: nat)
    ensures Probe(hash, p) == (hash + p) % TABLE
  {
    Pow2At32();
    assert RingSize(TABLE);
    WrapThenMask(hash + p, TABLE);
  }

  /** The probe sequence from any hash visits every slot, each exactly once. */
  lemma ProbesCoverTable(hash: nat, slot: nat, p: nat)
    requires slot < TABLE && p < TABLE
    ensures Probe(hash, p) == slot <==> p == ProbeOf(hash, slot)
  {
    hide Probe;
    ProbeIsMod(hash, p);
    var q := ProbeOf(hash, slot);
    ProbeIsMod(hash, q);
    ModAdd(slot - hash, hash, TABLE);
    assert (q + hash) % TABLE == slot % TABLE == slot;
    if Probe(hash, p) == slot {
      if p <= q { SameSlot(hash + p, hash + q, TABLE); } else { SameSlot(hash + q, hash + p, TABLE); }
    }
  }

  /** The mix in plain arithmetic: two rounds of folding the high half down and multiplying. */
  lemma MixInArithmetic(h: u32)
    ensures var a := (Xor(h / 65536, h) * 0x45d9f3b) % TWO32;
            var b := (Xor(a / 65536, a) * 0x45d9f3b) % TWO32;
            Mix(h) == Xor(b / 65536, b)
  {
    hide Times, Xor;
    TimesIsProduct(XorShift(h), MULTIPLIER);
    var a := Times(XorShift(h), MULTIPLIER);
    TimesIsProduct(XorShift(a), MULTIPLIER);
  }

  /** Handles spread evenly: the home slot is the mix modulo the table, and each slot is home
      to exactly the handles whose mix lies in its class. */
  lemma HomeSlots(x: u32)
    ensures HashHandle(x) == Mix(x) % 4096
    ensures HashHandle(Unmix(x)) == x % 4096
  {
    hide Mix, Unmix;
    MixIsAPermutation(x);
    Pow2At32();
    AndLowBits(Mix(x), 12);
    AndLowBits(Mix(Unmix(x)), 12);
  }
}
