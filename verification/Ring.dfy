/** gravity_ring.h as code over a byte array and two u32 indices. A Ring is one direction
    of the transport: the command ring (cmd_*) or the completion ring (comp_*). The ghost
    fields are the history of Channel.Chan; every method is proved to be a run of that
    step-level protocol with nobody in between. */
module Ring {
  import opened Words
  import opened Protocol
  import opened Channel
  import opened ChannelTheorems
  import opened ChannelProgress

  class SharedRing {
    const config: Config
    const bytes: array<byte>
    var head: u32
    var tail: u32
    ghost var accepted: seq<seq<byte>>
    ghost var delivered: seq<seq<byte>>
    ghost var taken: nat

    ghost function State(): Chan
      reads this, bytes
    {
      Chan(bytes[..], head, tail, Resting, Polling, accepted, delivered, taken)
    }

    ghost predicate Valid()
      reads this, bytes
    {
      && Inv(config, State())
      && (config.kind.Commands? ==> DispatchInv(State()))
    }

    /** The unread bytes, oldest first, as they lie in the ring. */
    ghost function Contents(): seq<byte>
      requires Valid()
      reads this, bytes
    {
      Unread(config, State())
    }

    lemma Sized()
      requires Valid()
      ensures bytes.Length == config.size > 0 && config.bufSize >= HEADER_SIZE
    {
    }

    constructor (c: Config)
      requires ValidConfig(c)
      ensures Valid() && config == c && fresh(bytes)
      ensures State() == Initial(c) && Contents() == []
    {
      config := c;
      assert c.size > 0 by { RingSizeBounds(c.size); }
      bytes := new byte[c.size](_ => 0);
      head, tail, accepted, delivered, taken := 0, 0, [], [], 0;
      new;
      assert bytes[..] == seq(c.size, _ => 0);
      InitialInv(c);
      UnreadIsStream(c, State());
    }

    method CmdSpace() returns (n: u32)
      requires Valid()
      ensures n == config.size - 1 - |Contents()|
    {
      DistanceIsUnread(config, State());
      RingSizeBounds(config.size);
      n := (config.size - 1) - And(U32(tail - head), config.size - 1);
    }

    method CmdAvailable() returns (n: u32)
      requires Valid()
      ensures n == |Contents()|
    {
      n := And(U32(tail - head), config.size - 1);
    }

    /** The byte-copy loop of cmd_write and comp_write. */
    method StoreBytes(data: seq<byte>)
      requires bytes.Length == config.size > 0
      modifies bytes
      ensures bytes[..] == CopyIn(old(bytes[..]), config.size, tail, data, |data|)
    {
      ghost var was := bytes[..];
      var i := 0;
      while i < |data|
        invariant i <= |data|
        invariant bytes[..] == CopyIn(was, config.size, tail, data, i)
      {
        bytes[Slot(tail + i, config.size)] := data[i];
        i := i + 1;
      }
    }

    /** Copying, then the release store of tail. */
    method CopyAndPublish(data: seq<byte>)
      requires Valid() && WriteAccepted(config, State(), |data|)
      modifies `tail, `accepted, bytes
      ensures Valid() && State() == AfterWrite(config, old(State()), data)
      ensures Contents() == old(Contents()) + data
    {
      hide Inv, Splits, CopyIn, Run;
      Sized();
      WriteMeaning(config, State(), data);
      StoreBytes(data);
      tail := Slot(tail + |data|, config.size);
      accepted := accepted + [data];
    }

    /** gravity_ring_cmd_write. */
    method CmdWrite(data: seq<byte>) returns (r: int)
      requires Valid() && config.kind.Commands?
      modifies `tail, `accepted, bytes
      ensures Valid()
      ensures r == 0 <==> 0 < |data| <= config.size / 2 && |old(Contents())| + |data| <= config.size - 1
      ensures r == 0 ==> Contents() == old(Contents()) + data
      ensures r == 0 ==> State() == Run(config, old(State()), [Begin(data)] + Turns(|data| + 1, Produce))
      ensures r != 0 ==> r == -1 && State() == old(State())
    {
      if |data| == 0 || |data| > config.size / 2 {
        return -1;
      }
      var space := CmdSpace();
      if space < |data| {
        return -1;
      }
      DistanceIsUnread(config, State());
      WriteAlone(config, State(), data);
      CopyAndPublish(data);
      return 0;
    }

    /** gravity_ring_comp_write: no size check beyond the space. */
    method CompWrite(data: seq<byte>) returns (r: int)
      requires Valid() && config.kind.Completions?
      modifies `tail, `accepted, bytes
      ensures Valid()
      ensures r == 0 <==> |old(Contents())| + |data| <= config.size - 1
      ensures r == 0 ==> Contents() == old(Contents()) + data
      ensures r == 0 ==> State() == Run(config, old(State()), [Begin(data)] + Turns(|data| + 1, Produce))
      ensures r != 0 ==> r == -1 && State() == old(State())
    {
      var space := (config.size - 1) - And(U32(tail - head), config.size - 1);
      if space < |data| {
        return -1;
      }
      WriteAlone(config, State(), data);
      CopyAndPublish(data);
      return 0;
    }

    lemma UnreadAt()
      requires Valid()
      ensures bytes.Length == config.size > 0
      ensures forall k :: 0 <= k < |Contents()| ==> Contents()[k] == bytes[Slot(head + k, config.size)]
    {
      hide Inv, DispatchInv, Distance;
      Sized();
    }

    /** One copy loop of cmd_peek or comp_read: unread bytes lo .. hi. */
    method LoadBytes(buf: array<byte>, lo: nat, hi: nat)
      requires Valid() && buf != bytes && lo <= hi <= buf.Length && hi <= |Contents()|
      modifies buf
      ensures buf[..] == old(buf[..lo]) + Contents()[lo..hi] + old(buf[hi..])
    {
      hide Inv, DispatchInv, Unread, Slot;
      UnreadAt();
      var i := lo;
      while i < hi
        invariant lo <= i <= hi
        invariant Valid() && Contents() == old(Contents()) && bytes[..] == old(bytes[..])
        invariant forall k :: lo <= k < i ==> buf[k] == Contents()[k]
        invariant forall k :: 0 <= k < lo || i <= k < buf.Length ==> buf[k] == old(buf[k])
      {
        buf[i] := bytes[Slot(head + i, config.size)];
        i := i + 1;
      }
    }

    /** The part cmd_peek and comp_read share: copy the header, decide, copy the rest.
        `ready` says that a whole frame fitting the caller's buffer is there. A buffer too
        short for the size field is read past its end in C. */
    method CopyFrame(buf: array<byte>) returns (ready: bool)
      requires Valid() && buf.Length >= SIZE_FIELD_END && buf != bytes
      modifies buf
      ensures ready <==> PeekReady(Contents(), buf.Length)
      ensures buf[..] == FrameBuffer(old(buf[..]), Contents())
    {
      hide Inv, DispatchInv, Le32, ReadHeader, Unread, Slot, FrameBuffer, FrameLength;
      ghost var u, was := Contents(), buf[..];
      BufferCases(was, u);
      var avail := CmdAvailable();
      if avail < HEADER_SIZE {
        return false;
      }
      var header := Min(HEADER_SIZE, buf.Length);
      LoadBytes(buf, 0, header);
      assert buf[..] == u[..header] + was[header..];
      SizeFieldOnly(u, buf[..]);
      var size := Le32(buf[..], 4);
      if size > avail || size > buf.Length {
        return false;
      }
      if size > HEADER_SIZE {
        LoadBytes(buf, HEADER_SIZE, size);
        CopiedTwice(was, u, HEADER_SIZE, size);
      }
      return true;
    }

    /** gravity_ring_cmd_peek; `ready` false stands for NULL. */
    method CmdPeek(buf: array<byte>) returns (ready: bool)
      requires Valid() && buf.Length >= SIZE_FIELD_END && buf != bytes
      modifies buf
      ensures ready <==> PeekReady(Contents(), buf.Length)
      ensures buf[..] == FrameBuffer(old(buf[..]), Contents())
      // the header as soon as one is there, the whole frame when ready, nothing else
      ensures |Contents()| >= 16 ==> forall k :: 0 <= k < 16 && k < buf.Length ==> buf[k] == Contents()[k]
      ensures ready ==> |Contents()| >= 16 && Le32(Contents(), 4) <= |Contents()| && Le32(Contents(), 4) <= buf.Length
      ensures ready ==> forall k :: 0 <= k < Le32(Contents(), 4) ==> buf[k] == Contents()[k]
      ensures forall k :: 0 <= k < buf.Length
                          && (|Contents()| < 16 || (k >= 16 && (!ready || k >= Le32(Contents(), 4))))
                ==> buf[k] == old(buf[k])
    {
      hide Unread, Inv, DispatchInv, Le32, ReadHeader;
      ghost var was := buf[..];
      ready := CopyFrame(buf);
      FrameBytes(was, Contents());
      assert forall k :: 0 <= k < buf.Length ==> buf[k] == buf[..][k] && old(buf[k]) == was[k];
    }

    /** The release store of head; `d` is recorded as delivered. */
    method Release(size: u32, ghost d: seq<seq<byte>>)
      requires Valid()
      modifies `head, `delivered, `taken
      ensures State() == old(State()).(head := Slot(old(head) + size, config.size), delivered := d,
                                       taken := old(taken) + size)
      ensures size <= |old(Contents())| ==>
                Inv(config, State()) && Unread(config, State()) == old(Contents())[size..]
    {
      hide Inv, DispatchInv, Unread, Slot;
      Sized();
      if size <= |Contents()| { ReleaseMeaning(config, State(), size, d); }
      head := Slot(head + size, config.size);
      delivered := d;
      taken := taken + size;
    }

    /** gravity_ring_cmd_consume, which checks nothing. Up to the unread bytes it drops
        exactly `size` of them. Called as command_loop does after a successful peek, past
        the command when it validates and past a bare header otherwise, it completes the
        step-level read. */
    method CmdConsume(size: u32)
      requires Valid() && config.kind.Commands?
      modifies `head, `delivered, `taken
      ensures head == Slot(old(head) + size, config.size)
      ensures size <= |old(Contents())| ==>
                Inv(config, State()) && Unread(config, State()) == old(Contents())[size..]
      ensures PeekReady(old(Contents()), HOST_BUFFER) && size == CommandStep(old(Contents())) ==>
                && Valid()
                && delivered == old(delivered) + Served(old(Contents()))
                && FrameReady(config, old(State())) && State() == AfterRead(config, old(State()))
    {
      hide Inv, DispatchInv, PeekReady, CommandStep, Served, AfterRead, FrameReady, Unread, Slot;
      Sized();
      ghost var u, d := Contents(), delivered;
      if PeekReady(u, HOST_BUFFER) && size == CommandStep(u) {
        CommandReadMeaning(config, State());
        d := delivered + Served(u);
      }
      Release(size, d);
    }

    /** gravity_ring_comp_read, with a buffer chosen call by call. */
    method CompRead(buf: array<byte>) returns (r: int)
      requires Valid() && config.kind.Completions?
      requires buf.Length >= SIZE_FIELD_END && buf != bytes
      modifies buf, `head, `delivered, `taken
      ensures Valid()
      ensures buf[..] == FrameBuffer(old(buf[..]), old(Contents()))
      ensures r > 0 ==> r <= |old(Contents())| && r <= buf.Length
                        && forall k :: 0 <= k < r ==> buf[k] == old(Contents())[k]
      ensures r == 0 && |old(Contents())| < 16 ==> buf[..] == old(buf[..])
      ensures !PeekReady(old(Contents()), buf.Length) ==>
                && r == (if |old(Contents())| < HEADER_SIZE then 0 else -1)
                && State() == old(State())
      ensures PeekReady(old(Contents()), buf.Length) ==>
                && r == SizeField(old(Contents()))
                && Contents() == old(Contents())[r..]
                && delivered == old(delivered) + [buf[..FrameLength(old(Contents()), buf.Length)]]
      ensures PeekReady(old(Contents()), buf.Length) && buf.Length >= HEADER_SIZE ==>
                var c := config.(bufSize := buf.Length);
                FrameReady(c, old(State())) && State() == AfterRead(c, old(State()))
    {
      hide Inv, DispatchInv, Le32, ReadHeader, AfterRead, FrameReady, Unread, FrameBuffer, FrameLength, Slot;
      Sized();
      ghost var u := Contents();
      var ready := CopyFrame(buf);
      FrameBytes(old(buf[..]), u);
      assert forall k :: 0 <= k < buf.Length ==> buf[k] == buf[..][k];
      var avail := CmdAvailable();
      if avail < HEADER_SIZE { return 0; }
      if !ready { return -1; }
      BufferedSize(old(buf[..]), u);
      var size := Le32(buf[..], 4);
      SizeFieldOnly(u, u);
      if buf.Length >= HEADER_SIZE { BufferedReadMeaning(config, State(), buf.Length); }
      Release(size, delivered + [buf[..FrameLength(u, buf.Length)]]);
      return size;
    }
  }

  lemma WriteMeaning(c: Config, s: Chan, data: seq<byte>)
    requires Inv(c, s) && WriteAccepted(c, s, |data|) && s.prod.Resting?
    ensures var s' := AfterWrite(c, s, data);
            && Inv(c, s') && Unread(c, s') == Unread(c, s) + data
            && (c.kind.Commands? && DispatchInv(s) ==> DispatchInv(s'))
  {
    hide Inv, DispatchInv, Unread, CopyIn, Run, WriteAccepted, Flatten, Slot, Turns;
    InvFacts(c, s);
    var schedule := [Begin(data)] + Turns(|data| + 1, Produce);
    var s' := AfterWrite(c, s, data);
    assert Run(c, s, schedule) == s' by { WriteAlone(c, s, data); }
    RunKeepsInv(c, s, schedule);
    if c.kind.Commands? && DispatchInv(s) { RunKeepsDispatch(c, s, schedule); }
    assert Unread(c, s') == Unread(c, s) + data by {
      UnreadIsStream(c, s);
      UnreadIsStream(c, s');
      OneMore(s.accepted, data);
      assert (Stream(s) + data)[s.taken..] == Stream(s)[s.taken..] + data;
    }
  }

  lemma ReadMeaning(c: Config, s: Chan)
    requires Inv(c, s) && s.cons.Polling? && PeekReady(Unread(c, s), c.bufSize)
    ensures FrameReady(c, s)
    ensures var u, s' := Unread(c, s), AfterRead(c, s);
            && NextSize(s) == SizeField(u)
            && Inv(c, s') && Unread(c, s') == u[s'.taken - s.taken..]
            && (c.kind.Commands? && DispatchInv(s) ==> DispatchInv(s'))
  {
    hide Splits, Holds, ReadHeader;
    UnreadIsStream(c, s);
    var schedule := Turns(Max(HEADER_SIZE, NextSize(s)) + 4, Consume);
    ReadAlone(c, s);
    RunKeepsInv(c, s, schedule);
    if c.kind.Commands? && DispatchInv(s) { RunKeepsDispatch(c, s, schedule); }
    UnreadIsStream(c, AfterRead(c, s));
  }

  lemma CommandReadMeaning(c: Config, s: Chan)
    requires Inv(c, s) && c.kind.Commands? && s.cons.Polling?
    requires PeekReady(Unread(c, s), HOST_BUFFER) && DispatchInv(s)
    ensures FrameReady(c, s)
    ensures var u, n := Unread(c, s), CommandStep(Unread(c, s));
            var s' := s.(head := Slot(s.head + n, c.size), delivered := s.delivered + Served(u),
                         taken := s.taken + n);
            s' == AfterRead(c, s) && Inv(c, s') && DispatchInv(s') && Unread(c, s') == u[n..]
  {
    hide Splits, Holds, ReadHeader;
    ReadMeaning(c, s);
    UnreadIsStream(c, s);
    var u := Unread(c, s);
    HeaderOfPrefix(u[..Max(HEADER_SIZE, NextSize(s))], u);
  }

  /** Releasing `n` unread bytes, whatever is recorded as delivered. */
  lemma ReleaseMeaning(c: Config, s: Chan, n: nat, d: seq<seq<byte>>)
    requires Inv(c, s) && s.cons.Polling? && n <= |Unread(c, s)|
    ensures var s' := s.(head := Slot(s.head + n, c.size), delivered := d, taken := s.taken + n);
            Inv(c, s') && Unread(c, s') == Unread(c, s)[n..]
  {
    hide Holds, Unread, Flatten;
    var s0 := s.(delivered := d, cons := Releasing(s.head, n));
    UnreadIsStream(c, s);
    assert Inv(c, s0);
    ReleaseKeepsInv(c, s0);
    UnreadIsStream(c, ConsumeStep(c, s0));
  }

  /** A completion read with a buffer of `size` bytes is the step-level read of a reader
      with that buffer. */
  lemma BufferedReadMeaning(c: Config, s: Chan, size: nat)
    requires Inv(c, s) && c.kind.Completions? && s.cons.Polling? && size >= HEADER_SIZE
    requires PeekReady(Unread(c, s), size)
    ensures var u, n := Unread(c, s), SizeField(Unread(c, s));
            var c' := c.(bufSize := size);
            && FrameReady(c', s)
            && AfterRead(c', s) == s.(head := Slot(s.head + n, c.size),
                                      delivered := s.delivered + [u[..FrameLength(u, size)]],
                                      taken := s.taken + n)
  {
    hide Holds, ReadHeader, Flatten, Unread;
    UnreadIsStream(c, s);
    var u := Unread(c, s);
    HeaderOfPrefix(u[..FrameLength(u, size)], u);
  }

  function Min(a: nat, b: nat): nat { if a < b then a else b }

  /** Bytes a successful read leaves in a buffer of `size` bytes. */
  function FrameLength(u: seq<byte>, size: nat): (n: nat)
    requires PeekReady(u, size)
    ensures n <= |u| && n <= size
  {
    Max(Min(HEADER_SIZE, size), SizeField(u))
  }

  /** A reader's buffer after a poll over unread bytes `u`: untouched without a header, as
      much of the header as it holds when the frame is incomplete or too large, else the
      whole frame. */
  function FrameBuffer(was: seq<byte>, u: seq<byte>): (b: seq<byte>)
    requires |was| >= SIZE_FIELD_END
    ensures |b| == |was|
  {
    if |u| < HEADER_SIZE then was
    else
      var n := if PeekReady(u, |was|) then FrameLength(u, |was|) else Min(HEADER_SIZE, |was|);
      u[..n] + was[n..]
  }

  lemma BufferCases(was: seq<byte>, u: seq<byte>)
    requires |was| >= SIZE_FIELD_END
    ensures |u| < HEADER_SIZE ==> FrameBuffer(was, u) == was
    ensures |u| >= HEADER_SIZE && !PeekReady(u, |was|) ==>
              var n := Min(HEADER_SIZE, |was|); FrameBuffer(was, u) == u[..n] + was[n..]
    ensures PeekReady(u, |was|) ==>
              var n := Max(Min(HEADER_SIZE, |was|), SizeField(u)); FrameBuffer(was, u) == u[..n] + was[n..]
  {
  }

  /** Copying up to `a` and then from `a` to `b` is copying up to `b`. */
  lemma CopiedTwice(was: seq<byte>, u: seq<byte>, a: nat, b: nat)
    requires a <= b <= |was| && b <= |u|
    ensures var once := u[..a] + was[a..];
            once[..a] + u[a..b] + once[b..] == u[..b] + was[b..]
  {
  }

  /** A reader's buffer, byte by byte. */
  lemma FrameBytes(was: seq<byte>, u: seq<byte>)
    requires |was| >= SIZE_FIELD_END
    ensures var b := FrameBuffer(was, u);
            && (|u| < 16 ==> b == was)
            && (|u| >= 16 ==> forall k :: 0 <= k < 16 && k < |was| ==> b[k] == u[k])
            && (PeekReady(u, |was|) ==>
                  && |u| >= 16 && Le32(u, 4) <= |u| && Le32(u, 4) <= |was|
                  && forall k :: 0 <= k < Le32(u, 4) ==> b[k] == u[k])
            && forall k :: 16 <= k < |was| && (!PeekReady(u, |was|) || k >= Le32(u, 4)) ==> b[k] == was[k]
  {
  }

  lemma SizeFieldOnly(u: seq<byte>, b: seq<byte>)
    requires |u| >= HEADER_SIZE && |b| >= SIZE_FIELD_END && forall k :: 4 <= k < 8 ==> b[k] == u[k]
    ensures Le32(b, 4) == SizeField(u)
  {
  }

  lemma BufferedSize(was: seq<byte>, u: seq<byte>)
    requires |was| >= SIZE_FIELD_END && PeekReady(u, |was|)
    ensures Le32(FrameBuffer(was, u), 4) == SizeField(u)
    ensures FrameBuffer(was, u)[..FrameLength(u, |was|)] == u[..FrameLength(u, |was|)]
  {
    hide SizeField, Le32;
    SizeFieldOnly(u, FrameBuffer(was, u));
  }

  lemma BufferedHeader(was: seq<byte>, u: seq<byte>)
    requires |was| >= HEADER_SIZE && PeekReady(u, |was|)
    ensures ReadHeader(FrameBuffer(was, u)) == ReadHeader(u)
    ensures FrameBuffer(was, u)[..SizeField(u)] == u[..SizeField(u)]
  {
    var n := Max(HEADER_SIZE, SizeField(u));
    var b := FrameBuffer(was, u);
    assert b[..n] == u[..n];
    HeaderOfPrefix(u[..n], u);
    HeaderOfPrefix(u[..n], b);
  }
}
