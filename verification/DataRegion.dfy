/** The bulk-data region: a bump allocator that wraps around and never frees. */
module DataRegion {
  import opened Words
  import opened Options

  const LINE: nat := 64

  /** A size rounded up to whole 64-byte lines. */
  function Rounded(n: nat): (r: nat)
    ensures n <= r < n + LINE && r % LINE == 0
  {
    (n + LINE - 1) / LINE * LINE
  }

  /** The region's bytes and the guest's allocation cursor. */
  datatype Region = Region(bytes: seq<byte>, cursor: nat)

  ghost predicate ValidRegion(r: Region) {
    && 0 < |r.bytes| <= 0x8000_0000
    && r.cursor < |r.bytes|
    && r.cursor % LINE == 0
  }

  /** Where a payload of `size` bytes goes. */
  function Place(r: Region, size: nat): nat {
    if r.cursor + size > |r.bytes| then 0 else r.cursor
  }

  function Overwrite(bytes: seq<byte>, at: nat, payload: seq<byte>): (b: seq<byte>)
    requires at + |payload| <= |bytes|
    ensures |b| == |bytes| && b[at..at + |payload|] == payload
  {
    bytes[..at] + payload + bytes[at + |payload|..]
  }

  /** One data_write; a payload larger than the region is refused. */
  function Write(r: Region, payload: seq<byte>): (r': Region)
    requires ValidRegion(r)
    ensures ValidRegion(r') && |r'.bytes| == |r.bytes|
  {
    if |payload| > |r.bytes| then r
    else
      var at := Place(r, |payload|);
      var next := at + Rounded(|payload|);
      Region(Overwrite(r.bytes, at, payload), if next >= |r.bytes| then 0 else next)
  }

  function WriteAll(r: Region, payloads: seq<seq<byte>>): (r': Region)
    requires ValidRegion(r)
    ensures ValidRegion(r') && |r'.bytes| == |r.bytes|
    decreases |payloads|
  {
    if payloads == [] then r
    else WriteAll(Write(r, payloads[0]), payloads[1..])
  }

  /** Bytes a write takes up in a region of `size` bytes: whole lines, or none when refused. */
  function Taken(size: nat, payload: seq<byte>): nat {
    if |payload| <= size then Rounded(|payload|) else 0
  }

  function Total(size: nat, payloads: seq<seq<byte>>): nat {
    if payloads == [] then 0 else Taken(size, payloads[0]) + Total(size, payloads[1..])
  }

  // ---- how long a payload survives ----

  /** After writes of `t` rounded bytes since a payload of rounded size `len` was placed at
      `at`, the cursor either still climbs above the payload, or has come round below. */
  ghost predicate Track(size: nat, cursor: nat, at: nat, len: nat, t: nat) {
    || cursor == at + len + t
    || (at + len + t >= size && cursor <= t)
  }

  lemma WriteMissesPayload(r: Region, at: nat, n: nat, t: nat, later: seq<byte>)
    requires ValidRegion(r) && at + n <= |r.bytes| && at % LINE == 0
    requires Track(|r.bytes|, r.cursor, at, Rounded(n), t)
    requires 2 * (t + Taken(|r.bytes|, later)) <= |r.bytes| - Rounded(n)
    ensures Write(r, later).bytes[at..at + n] == r.bytes[at..at + n]
    ensures Track(|r.bytes|, Write(r, later).cursor, at, Rounded(n), t + Taken(|r.bytes|, later))
  {
    if |later| > |r.bytes| { return; }
    var to := Place(r, |later|);
    assert to >= at + n || to + |later| <= at;
    forall i | at <= i < at + n
      ensures Write(r, later).bytes[i] == r.bytes[i]
    {
    }
  }

  lemma {:induction false} LaterWritesMiss(r: Region, at: nat, n: nat, t: nat, later: seq<seq<byte>>)
    requires ValidRegion(r) && at + n <= |r.bytes| && at % LINE == 0
    requires Track(|r.bytes|, r.cursor, at, Rounded(n), t)
    requires 2 * (t + Total(|r.bytes|, later)) <= |r.bytes| - Rounded(n)
    ensures WriteAll(r, later).bytes[at..at + n] == r.bytes[at..at + n]
    decreases |later|
  {
    if later != [] {
      WriteMissesPayload(r, at, n, t, later[0]);
      LaterWritesMiss(Write(r, later[0]), at, n, t + Taken(|r.bytes|, later[0]), later[1..]);
    }
  }

  /** A payload is intact as long as the writes after it total at most half of what the
      region has left beside it, sizes rounded up to lines and refused writes not counted. */
  lemma PayloadSurvives(r: Region, payload: seq<byte>, later: seq<seq<byte>>)
    requires ValidRegion(r) && |payload| <= |r.bytes|
    requires 2 * Total(|r.bytes|, later) <= |r.bytes| - Rounded(|payload|)
    ensures var at := Place(r, |payload|);
            WriteAll(Write(r, payload), later).bytes[at..at + |payload|] == payload
  {
    hide Write, WriteAll, Rounded, Total;
    WriteCursor(r, payload);
    LaterWritesMiss(Write(r, payload), Place(r, |payload|), |payload|, 0, later);
  }

  lemma WriteCursor(r: Region, payload: seq<byte>)
    requires ValidRegion(r) && |payload| <= |r.bytes|
    ensures var at := Place(r, |payload|);
            && Write(r, payload).cursor
               == (if at + Rounded(|payload|) >= |r.bytes| then 0 else at + Rounded(|payload|))
            && Write(r, payload).bytes[at..at + |payload|] == payload
  {
  }

  /** The bound is tight to one line, for every payload size and every region that leaves
      an even number of lines beside it: one more line of later writes can reach it. */
  lemma SurvivalBoundIsTight(payload: seq<byte>, half: nat, zeros: seq<byte>, other: byte)
    requires |payload| > 0 && other != payload[0] && half % LINE == 0
    requires zeros == seq(2 * half + Rounded(|payload|), _ => 0)
    requires |zeros| <= 0x8000_0000
    ensures var filler, killer := seq<byte>(half, _ => 0), seq<byte>(half + 1, _ => other);
            var start := Region(zeros, 0);
            var r := Write(start, filler);
            && ValidRegion(start)
            && 2 * Rounded(|killer|) == |zeros| - Rounded(|payload|) + 2 * LINE
            && Place(r, |payload|) == half
            && Write(Write(r, payload), killer).bytes[half..half + |payload|] != payload
  {
    hide Overwrite, Rounded, Write;
    var filler, killer := seq<byte>(half, _ => 0), seq<byte>(half + 1, _ => other);
    var r0 := Region(zeros, 0);
    WholeLines(half);
    WriteCursor(r0, filler);
    var r := Write(r0, filler);
    assert r.cursor == half && |r.bytes| == |zeros|;
    WriteCursor(r, payload);
    var r1 := Write(r, payload);
    assert r1.cursor == (if half == 0 then 0 else half + Rounded(|payload|)) && |r1.bytes| == |zeros|;
    WriteCursor(r1, killer);
    Overrun(Write(r1, killer).bytes, killer, half, payload);
  }

  lemma WholeLines(half: nat)
    requires half % LINE == 0
    ensures Rounded(half) == half && Rounded(half + 1) == half + LINE
  {
    ModAddMultiple(1, half / LINE, LINE);
  }

  /** Bytes that start with `killer` hold its last byte where the payload began. */
  lemma Overrun(bytes: seq<byte>, killer: seq<byte>, half: nat, payload: seq<byte>)
    requires |killer| == half + 1 <= half + |payload| <= |bytes| && bytes[0..half + 1] == killer
    requires payload[0] != killer[half]
    ensures bytes[half..half + |payload|] != payload
  {
    assert bytes[half] == bytes[0..half + 1][half];
    assert bytes[half..half + |payload|][0] == bytes[half];
  }

  // ---- the code ----

  /** `(x + 63) & ~63u` on an aligned offset plus a size. */
  lemma NextLine(at: nat, n: nat)
    requires at % LINE == 0 && at + n <= 0x8000_0000
    ensures And(U32(at + n + 63), UINT32_MAX - 63) == at + Rounded(n)
  {
    hide And, U32, Rounded;
    ClearLow6(at + n + 63);
    NoWrap(at + n + 63);
    RoundedDown(n);
    ModAddMultiple(n + 63, at / LINE, LINE);
  }

  /** A write byte by byte: at the cursor unless the payload would run over the end, nothing
      else touched, the cursor on the next line. */
  lemma WriteByByte(r: Region, payload: seq<byte>)
    requires ValidRegion(r) && |payload| <= |r.bytes|
    ensures var r', at := Write(r, payload), if r.cursor + |payload| <= |r.bytes| then r.cursor else 0;
            && at == Place(r, |payload|) && r'.bytes[at..at + |payload|] == payload
            && (forall i :: 0 <= i < at || at + |payload| <= i < |r.bytes| ==> r'.bytes[i] == r.bytes[i])
            && exists next :: next % 64 == 0 && at + |payload| <= next < at + |payload| + 64
                              && r'.cursor == if next < |r.bytes| then next else 0
  {
    var at := Place(r, |payload|);
    var next := at + Rounded(|payload|);
    assert next % 64 == 0;
  }

  lemma RoundedDown(n: nat)
    ensures Rounded(n) == n + 63 - (n + 63) % LINE
  {
  }

  class BulkData {
    const bytes: array<byte>
    const regionOffset: u32      // header->data_region_offset
    var cursor: u32              // data_alloc_offset

    constructor (size: u32, offset: u32)
      requires 0 < size <= 0x8000_0000 && offset + size < TWO32
      ensures Valid() && fresh(bytes)
      ensures bytes.Length == size && regionOffset == offset && cursor == 0
    {
      bytes := new byte[size](_ => 0);
      regionOffset := offset;
      cursor := 0;
    }

    ghost function State(): Region
      reads this, bytes
    {
      Region(bytes[..], cursor)
    }

    ghost predicate Valid()
      reads this, bytes
    {
      ValidRegion(State()) && regionOffset + bytes.Length < TWO32
    }

    /** Bytes a reader finds at `offset` from the shared-memory base. */
    ghost function At(offset: nat, n: nat): Option<seq<byte>>
      reads this, bytes
    {
      var local := LocalOffset(offset);
      if local.Some? && local.value + n <= bytes.Length
      then Some(bytes[local.value..local.value + n]) else None
    }

    /** gravity_ring_data_ptr: the offset is 64-bit, the difference is cut to 32 bits. */
    function LocalOffset(offset: nat): (r: Option<nat>)
      ensures r.Some? ==> r.value < bytes.Length
    {
      if offset < regionOffset then None
      else
        var local := U32(offset - regionOffset);
        if local >= bytes.Length then None else Some(local)
    }

    method CopyPayload(at: nat, payload: seq<byte>)
      requires at + |payload| <= bytes.Length
      modifies bytes
      ensures bytes[..] == Overwrite(old(bytes[..]), at, payload)
      ensures forall i :: 0 <= i < at || at + |payload| <= i < bytes.Length ==> bytes[i] == old(bytes[i])
    {
      forall i | 0 <= i < |payload| {
        bytes[at + i] := payload[i];
      }
    }

    /** The 32-bit offset data_write reports leads data_ptr back to `at`. */
    lemma OffsetRoundTrip(at: nat)
      requires at < bytes.Length && regionOffset + bytes.Length < TWO32
      ensures LocalOffset(U32(regionOffset + at)) == Some(at)
    {
      NoWrap(regionOffset + at);
      NoWrap(at);
    }

    /** gravity_ring_data_write. */
    method DataWrite(payload: seq<byte>) returns (r: int, offset: nat)
      requires Valid()
      modifies `cursor, bytes
      ensures Valid()
      ensures r == 0 <==> |payload| <= bytes.Length
      ensures r != 0 ==> r == -1
      ensures State() == Write(old(State()), payload)
      ensures r == 0 ==> LocalOffset(offset) == Some(Place(old(State()), |payload|))
      ensures r == 0 ==> At(offset, |payload|) == Some(payload)
      // at the cursor unless the payload would run over the end; then on to the next line
      ensures r == 0 ==>
                var at := if old(cursor) + |payload| <= bytes.Length then old(cursor) else 0;
                && offset == regionOffset + at
                && bytes[at..at + |payload|] == payload
                && (forall i :: 0 <= i < at || at + |payload| <= i < bytes.Length ==> bytes[i] == old(bytes[i]))
                && (exists next :: next % 64 == 0 && at + |payload| <= next < at + |payload| + 64
                                   && cursor == if next < bytes.Length then next else 0)
      ensures r != 0 ==> bytes[..] == old(bytes[..]) && cursor == old(cursor)
    {
      hide And, U32, LocalOffset, Overwrite, Rounded;
      ghost var r0 := State();
      if |payload| > bytes.Length {
        return -1, 0;
      }
      var at := cursor;
      NoWrap(at + |payload|);
      if U32(at + |payload|) > bytes.Length {
        at := 0;
      }
      CopyPayload(at, payload);
      NoWrap(regionOffset + at);
      offset := U32(regionOffset + at);
      OffsetRoundTrip(at);
      NextLine(at, |payload|);
      cursor := And(U32(at + |payload| + 63), UINT32_MAX - 63);
      if cursor >= bytes.Length {
        cursor := 0;
      }
      WriteByByte(r0, payload);
      assert forall i :: 0 <= i < bytes.Length ==> bytes[i] == bytes[..][i];
      r := 0;
    }
  }

  /** A guest's use of the region: a payload stored, then more writes. What data_ptr finds
      at the returned offset is still the payload when the later sizes, rounded to lines,
      total at most half of the rest of the region. */
  method StoreThenKeepWriting(b: BulkData, payload: seq<byte>, later: seq<seq<byte>>)
    returns (r: int, offset: nat)
    requires b.Valid()
    modifies b`cursor, b.bytes
    ensures b.Valid()
    ensures r == 0 <==> |payload| <= b.bytes.Length
    ensures r == 0 && 2 * Total(b.bytes.Length, later) <= b.bytes.Length - Rounded(|payload|)
            ==> b.At(offset, |payload|) == Some(payload)
  {
    hide Write, Rounded, Place;
    ghost var start := b.State();
    r, offset := b.DataWrite(payload);
    ghost var stored := b.State();
    var k := 0;
    assert later[0..] == later;
    while k < |later|
      invariant k <= |later| && b.Valid()
      invariant WriteAll(b.State(), later[k..]) == WriteAll(stored, later)
    {
      assert later[k..][0] == later[k] && later[k..][1..] == later[k + 1..];
      var ret, off := b.DataWrite(later[k]);
      k := k + 1;
    }
    assert b.State() == WriteAll(stored, later);
    if r == 0 && 2 * Total(b.bytes.Length, later) <= b.bytes.Length - Rounded(|payload|) {
      PayloadSurvives(start, payload, later);
    }
  }

  /** data_ptr accepts exactly the offsets congruent, modulo 2^32, to an address inside the
      region and not below its start; inside the mapping it is exactly the region. */
  lemma PtrInsideMapping(b: BulkData, offset: nat)
    requires b.regionOffset + b.bytes.Length < TWO32
    ensures offset < TWO32 ==>
              (b.LocalOffset(offset).Some? <==> b.regionOffset <= offset < b.regionOffset + b.bytes.Length)
    ensures b.LocalOffset(offset).Some? ==>
              b.LocalOffset(offset).value == U32(offset - b.regionOffset)
    ensures offset >= b.regionOffset ==> b.LocalOffset(offset + TWO32) == b.LocalOffset(offset)
  {
    if offset >= b.regionOffset { ModAddMultiple(offset - b.regionOffset, 1, TWO32); }
  }
}
