/** gravity_ring_init_host and gravity_ring_attach: sizing the rings and laying out the
    shared memory. */
module Layout {
  import opened Words

  const RING_MAGIC: u32 := 0x52494E47
  const PROTOCOL_VERSION: u32 := 0x0000_0001   // major 0, minor 1
  const STATUS_READY: u32 := 0x0001
  const RING_HEADER_SIZE: u32 := 64
  const BIG: nat := 0x4000_0000                // 2^30

  datatype RingHeader = RingHeader(
    magic: u32, version: u32,
    cmdRingOffset: u32, cmdRingSize: u32,
    compRingOffset: u32, compRingSize: u32,
    dataRegionOffset: u32, dataRegionSize: u32,
    cmdHead: u32, cmdTail: u32, compHead: u32, compTail: u32,
    status: u32)

  /** gravity_ring_t after attach: base offsets, sizes and masks. */
  datatype View = View(
    cmdRing: u32, compRing: u32, dataRegion: u32,
    cmdRingSize: u32, cmdRingMask: u32, compRingSize: u32, compRingMask: u32,
    dataRegionSize: u32, dataAllocOffset: u32)

  /** `p` is the least power of two not below `n`. */
  ghost predicate LeastPow2(n: nat, p: nat) {
    && IsPow2(p)
    && n <= p
    && forall q {:trigger IsPow2(q)} :: IsPow2(q) && n <= q ==> p <= q
  }

  lemma Pow2IsLeast(n: nat, k: nat)
    requires n <= Pow2(k) && (k > 0 ==> Pow2(k - 1) < n)
    ensures LeastPow2(n, Pow2(k))
  {
    forall q | IsPow2(q) && n <= q
      ensures Pow2(k) <= q
    {
      var j: nat :| q == Pow2(j);
      if j < k { Pow2Monotone(j, k - 1); } else { Pow2Monotone(k, j); }
    }
  }

  lemma LeastPow2Unique(n: nat, p: nat, q: nat)
    requires LeastPow2(n, p) && LeastPow2(n, q)
    ensures p == q
  {
  }

  /** What the doubling loop's variable holds after `k` turns, on 32-bit words. */
  function Doubled(k: nat): u32 {
    if k == 0 then 1 else U32(2 * Doubled(k - 1))
  }

  lemma WrapZero()
    ensures U32(TWO32) == 0 && U32(0) == 0
  {
  }

  lemma {:induction false} DoubledIsPow2(k: nat)
    ensures Doubled(k) == if k < 32 then Pow2(k) else 0
  {
    hide U32;
    if k > 0 {
      DoubledIsPow2(k - 1);
      Pow2At32();
      WrapZero();
      if k < 32 {
        Pow2Monotone(k, 31);
        NoWrap(Pow2(k));
      }
    }
  }

  /** The doubling loop ends exactly for requests up to 2^31. */
  lemma DoublingTerminatesExactly(n: u32)
    ensures n <= 0x8000_0000 <==> exists k :: Doubled(k) >= n
  {
    forall k ensures Doubled(k) <= 0x8000_0000 {
      DoubledIsPow2(k);
      Pow2At32();
      if k < 32 { Pow2Monotone(k, 31); }
    }
    DoubledIsPow2(31);
    Pow2At32();
    assert Doubled(31) == 0x8000_0000;
  }

  /** Where a request is rounded to. */
  lemma RoundedBounds(n: u32, p: nat)
    requires n <= 0x8000_0000 && LeastPow2(n, p)
    ensures RingSize(p) && p <= 0x8000_0000
    ensures n <= BIG ==> p <= BIG
    ensures n > BIG ==> p == 0x8000_0000
  {
    Pow2At32();
    assert IsPow2(Pow2(31)) && IsPow2(Pow2(30));
    var k: nat :| p == Pow2(k);
    if k >= 31 { Pow2Monotone(31, k); } else { Pow2Monotone(k, 30); }
    if k >= 32 { Pow2Monotone(32, k); }
  }

  /** Header, command ring, completion ring and data region follow one another and fill
      [0, total). */
  predicate Tiles(h: RingHeader, total: u32) {
    && h.cmdRingOffset == RING_HEADER_SIZE
    && h.compRingOffset == h.cmdRingOffset + h.cmdRingSize
    && h.dataRegionOffset == h.compRingOffset + h.compRingSize
    && h.dataRegionSize > 0
    && h.dataRegionOffset + h.dataRegionSize == total
  }

  /** Both rings round to 2^31: their sum wraps to zero. */
  predicate SizesWrap(cmd: u32, comp: u32) { cmd > BIG && comp > BIG }

  /** The two offset additions on 32-bit words. */
  lemma WrappedSum(cmd: nat, comp: nat)
    requires cmd <= 0x8000_0000 && comp <= 0x8000_0000
    ensures U32(RING_HEADER_SIZE + cmd) == RING_HEADER_SIZE + cmd
    ensures U32(RING_HEADER_SIZE + cmd + comp)
            == if cmd == comp == 0x8000_0000 then RING_HEADER_SIZE
               else if RING_HEADER_SIZE + cmd + comp < TWO32 then RING_HEADER_SIZE + cmd + comp
               else RING_HEADER_SIZE + cmd + comp - TWO32
  {
  }

  class SharedMemory {
    var header: RingHeader
    const bytes: array<byte>

    constructor (size: u32, h: RingHeader)
      ensures bytes.Length == size && header == h && fresh(bytes)
    {
      bytes := new byte[size](_ => 0);
      header := h;
    }

    method RoundUp(n: u32) returns (p: u32)
      requires n <= 0x8000_0000
      ensures LeastPow2(n, p)
    {
      p := 1;
      ghost var k := 0;
      while p < n
        invariant k < 32 && p == Pow2(k) <= 0x8000_0000
        invariant k > 0 ==> Pow2(k - 1) < n
        decreases 32 - k
      {
        Pow2At32();
        if k >= 31 { Pow2Monotone(31, k); }
        Pow2Monotone(k + 1, 31);
        p := U32(2 * p);
        k := k + 1;
      }
      Pow2IsLeast(n, k);
    }

    /** gravity_ring_init_host. Requests above 2^31 never leave the doubling loop. */
    method InitHost(total: u32, cmdRequest: u32, compRequest: u32) returns (r: int)
      requires total <= bytes.Length
      requires cmdRequest <= 0x8000_0000 && compRequest <= 0x8000_0000
      modifies `header, bytes
      ensures r == 0 || r == -1
      ensures r != 0 ==> header == old(header) && bytes[..] == old(bytes[..])
      ensures r == 0 ==>
                && LeastPow2(cmdRequest, header.cmdRingSize)
                && LeastPow2(compRequest, header.compRingSize)
                && RingSize(header.cmdRingSize) && RingSize(header.compRingSize)
      ensures r == 0 ==> (Tiles(header, total) <==> !SizesWrap(cmdRequest, compRequest))
      ensures forall p: nat, q: nat | LeastPow2(cmdRequest, p) && LeastPow2(compRequest, q) ::
                !SizesWrap(cmdRequest, compRequest) ==> (r == 0 <==> RING_HEADER_SIZE + p + q < total)
      ensures SizesWrap(cmdRequest, compRequest) ==> (r == 0 <==> RING_HEADER_SIZE < total)
      ensures r == 0 ==>
                && header.cmdRingOffset == 64
                && header.compRingOffset == (64 + header.cmdRingSize) % 0x1_0000_0000
                && header.dataRegionOffset == (64 + header.cmdRingSize + header.compRingSize) % 0x1_0000_0000
                && header.dataRegionOffset + header.dataRegionSize == total
                && header.magic == 0x52494E47 && header.version == 1 && header.status == 1
      ensures r == 0 ==>
                && header.magic == RING_MAGIC && header.version == PROTOCOL_VERSION
                && header.status == STATUS_READY
                && header.cmdHead == header.cmdTail == header.compHead == header.compTail == 0
                && (forall i :: RING_HEADER_SIZE <= i < total ==> bytes[i] == 0)
                && (forall i :: total <= i < bytes.Length ==> bytes[i] == old(bytes[i]))
    {
      var cmdSize := RoundUp(cmdRequest);
      var compSize := RoundUp(compRequest);
      RoundedBounds(cmdRequest, cmdSize);
      RoundedBounds(compRequest, compSize);
      forall p: nat, q: nat | LeastPow2(cmdRequest, p) && LeastPow2(compRequest, q)
        ensures p == cmdSize && q == compSize
      {
        LeastPow2Unique(cmdRequest, p, cmdSize);
        LeastPow2Unique(compRequest, q, compSize);
      }
      hide LeastPow2, RingSize, U32;
      WrappedSum(cmdSize, compSize);
      var cmdOffset := RING_HEADER_SIZE;
      var compOffset: int := U32(cmdOffset + cmdSize);
      var dataOffset := U32(compOffset + compSize);
      if dataOffset >= total {
        return -1;
      }
      forall i | 0 <= i < total {
        bytes[i] := 0;
      }
      header := RingHeader(RING_MAGIC, PROTOCOL_VERSION, cmdOffset, cmdSize, compOffset, compSize,
                           dataOffset, total - dataOffset, 0, 0, 0, 0, STATUS_READY);
      r := 0;
    }

    /** gravity_ring_attach; only the command ring's size is checked, and zero passes. */
    method Attach() returns (r: int, v: View)
      ensures r == 0 || r == -1
      ensures r == 0 <==> && header.magic == RING_MAGIC
                          && header.status % 2 == 1
                          && (header.cmdRingSize == 0 || IsPow2(header.cmdRingSize))
      ensures r == 0 ==>
                v == View(header.cmdRingOffset, header.compRingOffset, header.dataRegionOffset,
                          header.cmdRingSize, U32(header.cmdRingSize - 1),
                          header.compRingSize, U32(header.compRingSize - 1),
                          header.dataRegionSize, 0)
    {
      v := View(0, 0, 0, 0, 0, 0, 0, 0, 0);
      if header.magic != RING_MAGIC {
        return -1, v;
      }
      ReadyBit(header.status);
      if And(header.status, STATUS_READY) == 0 {
        return -1, v;
      }
      SizeTest(header.cmdRingSize);
      if And(header.cmdRingSize, U32(header.cmdRingSize - 1)) != 0 {
        return -1, v;
      }
      v := View(header.cmdRingOffset, header.compRingOffset, header.dataRegionOffset,
                header.cmdRingSize, U32(header.cmdRingSize - 1),
                header.compRingSize, U32(header.compRingSize - 1),
                header.dataRegionSize, 0);
      r := 0;
    }
  }

  lemma ReadyBit(status: u32)
    ensures And(status, STATUS_READY) == status % 2
  {
    AndUnfold(status, 1);
    AndLowBits(status / 2, 0);
  }

  /** The `n & (n - 1)` test passes exactly zero and the powers of two. */
  lemma SizeTest(n: u32)
    ensures And(n, U32(n - 1)) == 0 <==> n == 0 || IsPow2(n)
  {
    hide IsPow2;
    if n > 0 {
      NoWrap(n - 1);
      PowerOfTwoTest(n);
    }
  }

  /** A host that initialises and a guest that attaches agree on one tiling. */
  method InitThenAttach(mem: SharedMemory, total: u32, cmdRequest: u32, compRequest: u32)
    returns (ok: bool, v: View)
    requires total <= mem.bytes.Length
    requires cmdRequest <= BIG && compRequest <= BIG
    modifies mem`header, mem.bytes
    ensures forall p: nat, q: nat | LeastPow2(cmdRequest, p) && LeastPow2(compRequest, q) ::
              ok <==> RING_HEADER_SIZE + p + q < total
    ensures ok ==>
              && RingSize(v.cmdRingSize) && RingSize(v.compRingSize)
              && v.cmdRing == RING_HEADER_SIZE
              && v.compRing == v.cmdRing + v.cmdRingSize
              && v.dataRegion == v.compRing + v.compRingSize
              && v.dataRegion + v.dataRegionSize == total
              && 0 < v.dataRegionSize && v.dataAllocOffset == 0
              && v.cmdRingMask == v.cmdRingSize - 1 && v.compRingMask == v.compRingSize - 1
  {
    var r := mem.InitHost(total, cmdRequest, compRequest);
    ok := r == 0;
    if r != 0 {
      v := View(0, 0, 0, 0, 0, 0, 0, 0, 0);
      return;
    }
    var a;
    a, v := mem.Attach();
    RingSizeBounds(v.cmdRingSize);
    RingSizeBounds(v.compRingSize);
  }
}
