/** The wire format: command headers, their validation, and the way the host splits a
    byte stream into commands. */
module Protocol {
  import opened Words

  const HEADER_SIZE: nat := 16
  const SIZE_FIELD_END: nat := 8       // the size field is bytes 4 to 7
  const HOST_BUFFER: nat := 65536      // command_loop's cmd_buf

  const CMD_HELLO: nat := 0x0001
  const CMD_PING: nat := 0x0003
  const CMD_PONG: nat := 0x0004
  const CMD_CMDBUF_COMMIT: nat := 0x0501
  const CMD_CMDBUF_COMPLETED: nat := 0x0503
  const CMD_MAX: nat := 0x0B02

  // ---- little-endian fields of the packed structs ----

  function Le16(s: seq<byte>, o: nat): (v: nat)
    requires o + 2 <= |s|
    ensures v < 0x1_0000
  {
    var b0: int, b1: int := s[o], s[o + 1];
    b0 + 256 * b1
  }

  function Le32(s: seq<byte>, o: nat): u32
    requires o + 4 <= |s|
  {
    var b0: int, b1: int, b2: int, b3: int := s[o], s[o + 1], s[o + 2], s[o + 3];
    b0 + 256 * b1 + 65536 * b2 + 16777216 * b3
  }

  function Bytes16(v: nat): seq<byte>
    requires v < 0x1_0000
  {
    [v % 256, v / 256]
  }

  function Bytes32(v: u32): seq<byte> {
    [v % 256, (v / 256) % 256, (v / 65536) % 256, v / 16777216]
  }

  datatype Header = Header(opcode: nat, flags: nat, size: u32, sequence: u32, fenceId: u32)

  function ReadHeader(s: seq<byte>): Header
    requires |s| >= HEADER_SIZE
  {
    Header(Le16(s, 0), Le16(s, 2), Le32(s, 4), Le32(s, 8), Le32(s, 12))
  }

  function SizeField(s: seq<byte>): u32
    requires |s| >= HEADER_SIZE
  {
    ReadHeader(s).size
  }

  /** gravity_cmd_init, as the 16 bytes it leaves in memory. */
  function InitHeader(opcode: nat, size: u32, sequence: u32): (s: seq<byte>)
    requires opcode < 0x1_0000
    ensures |s| == HEADER_SIZE
  {
    Bytes16(opcode) + Bytes16(0) + Bytes32(size) + Bytes32(sequence) + Bytes32(0)
  }

  lemma HeaderRoundTrip(opcode: nat, size: u32, sequence: u32, body: seq<byte>)
    requires opcode < 0x1_0000
    ensures ReadHeader(InitHeader(opcode, size, sequence) + body)
            == Header(opcode, 0, size, sequence, 0)
  {
    var s := InitHeader(opcode, size, sequence) + body;
    assert s[0..2] == Bytes16(opcode) && s[2..4] == Bytes16(0);
    assert s[4..8] == Bytes32(size) && s[8..12] == Bytes32(sequence) && s[12..16] == Bytes32(0);
    Le32OfBytes(size);
    Le32OfBytes(sequence);
    assert Le32(s, 4) == Le32(s[4..8], 0) && Le32(s, 8) == Le32(s[8..12], 0);
    assert Le16(s, 0) == Le16(s[0..2], 0) && Le16(s, 2) == Le16(s[2..4], 0);
    assert Le32(s, 12) == Le32(s[12..16], 0);
  }

  lemma Le32OfBytes(v: u32)
    ensures Le32(Bytes32(v), 0) == v
  {
    assert v / 65536 == (v / 256) / 256 && v / 16777216 == (v / 65536) / 256;
  }

  /** The header's bytes in memory: little-endian fields in the order of the struct. */
  lemma HeaderOnTheWire(opcode: nat, size: u32, sequence: u32)
    requires opcode < 0x1_0000
    ensures InitHeader(opcode, size, sequence)
            == [opcode % 256, opcode / 256, 0, 0,
                size % 256, (size / 256) % 256, (size / 65536) % 256, size / 16777216,
                sequence % 256, (sequence / 256) % 256, (sequence / 65536) % 256, sequence / 16777216,
                0, 0, 0, 0]
  {
  }

  lemma Le32At(s: seq<byte>, o: nat, v: u32)
    requires o + 4 <= |s| && s[o..o + 4] == Bytes32(v)
    ensures Le32(s, o) == v
  {
    Le32OfBytes(v);
    var w := s[o..o + 4];
    assert w[0] == s[o] && w[1] == s[o + 1] && w[2] == s[o + 2] && w[3] == s[o + 3];
  }

  lemma Le16At(s: seq<byte>, o: nat, v: nat)
    requires v < 0x1_0000 && o + 2 <= |s| && s[o..o + 2] == Bytes16(v)
    ensures Le16(s, o) == v
  {
    var w := s[o..o + 2];
    assert w[0] == s[o] && w[1] == s[o + 1];
  }

  /** gravity_cmd_validate (non-null header): 0 is true, -1 is false. */
  predicate CmdValidate(h: Header, available: nat) {
    && available >= HEADER_SIZE
    && h.size >= HEADER_SIZE
    && h.size <= available
    && h.opcode < CMD_MAX
  }

  /** A command the host dispatches whole. */
  predicate WellFormedCommand(f: seq<byte>) {
    && HEADER_SIZE <= |f| <= HOST_BUFFER
    && SizeField(f) == |f|
    && ReadHeader(f).opcode < CMD_MAX
  }

  lemma HeaderOfPrefix(s: seq<byte>, t: seq<byte>)
    requires HEADER_SIZE <= |s| <= |t| && t[..|s|] == s
    ensures ReadHeader(s) == ReadHeader(t)
  {
    assert forall i :: 0 <= i < |s| ==> s[i] == t[..|s|][i] == t[i];
  }

  // ---- splitting a stream of unread bytes ----

  /** What one peek decides about the unread bytes `u`: whether it returns a command
      (false stands for NULL). */
  predicate PeekReady(u: seq<byte>, bufSize: nat) {
    |u| >= HEADER_SIZE && SizeField(u) <= |u| && SizeField(u) <= bufSize
  }

  /** Bytes command_loop consumes after a successful peek. */
  function CommandStep(u: seq<byte>): (n: nat)
    requires PeekReady(u, HOST_BUFFER)
    ensures HEADER_SIZE <= n <= |u|
  {
    if CmdValidate(ReadHeader(u), HOST_BUFFER) then SizeField(u) else HEADER_SIZE
  }

  /** The command one successful peek makes command_loop dispatch, if it validates. */
  function Served(u: seq<byte>): seq<seq<byte>>
    requires PeekReady(u, HOST_BUFFER)
  {
    if CmdValidate(ReadHeader(u), HOST_BUFFER) then [u[..CommandStep(u)]] else []
  }

  datatype Drained = Drained(frames: seq<seq<byte>>, rest: seq<byte>, iterations: nat)

  /** What command_loop does with unread bytes `u` while the guest stays idle: the
      commands dispatched, the bytes left when peek returns NULL, and the number of
      loop iterations that consumed something. */
  function Drain(u: seq<byte>): (d: Drained)
    ensures HEADER_SIZE * d.iterations + |d.rest| <= |u|
    ensures |d.frames| <= d.iterations
    ensures !PeekReady(d.rest, HOST_BUFFER)
    decreases |u|
  {
    if !PeekReady(u, HOST_BUFFER) then Drained([], u, 0)
    else
      var d := Drain(u[CommandStep(u)..]);
      Drained(Served(u) + d.frames, d.rest, d.iterations + 1)
  }

  function Flatten(fs: seq<seq<byte>>): seq<byte> {
    if fs == [] then [] else Flatten(fs[..|fs| - 1]) + fs[|fs| - 1]
  }

  lemma {:induction false} FlattenAppend(a: seq<seq<byte>>, b: seq<seq<byte>>)
    ensures Flatten(a + b) == Flatten(a) + Flatten(b)
  {
    if b == [] {
      assert a + b == a;
    } else {
      assert (a + b)[..|a + b| - 1] == a + b[..|b| - 1];
      FlattenAppend(a, b[..|b| - 1]);
      assert Flatten(a + b) == Flatten(a) + Flatten(b[..|b| - 1]) + b[|b| - 1];
    }
  }

  lemma FlattenFront(fs: seq<seq<byte>>)
    requires fs != []
    ensures Flatten(fs) == fs[0] + Flatten(fs[1..])
  {
    assert fs == [fs[0]] + fs[1..];
    FlattenAppend([fs[0]], fs[1..]);
    var none: seq<seq<byte>> := [fs[0]][..0];
    assert none == [];
    assert Flatten([fs[0]]) == fs[0];
  }

  lemma PeekWellFormed(f: seq<byte>, v: seq<byte>)
    requires WellFormedCommand(f)
    ensures PeekReady(f + v, HOST_BUFFER) && CommandStep(f + v) == |f|
    ensures CmdValidate(ReadHeader(f + v), HOST_BUFFER)
    ensures (f + v)[..|f|] == f && (f + v)[|f|..] == v
  {
    HeaderOfPrefix(f, f + v);
  }

  lemma DrainOneCommand(f: seq<byte>, v: seq<byte>)
    requires WellFormedCommand(f)
    ensures var d := Drain(v);
            Drain(f + v) == Drained([f] + d.frames, d.rest, d.iterations + 1)
  {
    PeekWellFormed(f, v);
  }

  /** The size fields re-parse a concatenation of well-formed commands exactly, and one
      iteration serves one command. */
  lemma {:induction false} DrainWellFormed(fs: seq<seq<byte>>)
    requires forall f :: f in fs ==> WellFormedCommand(f)
    ensures Drain(Flatten(fs)) == Drained(fs, [], |fs|)
  {
    if fs != [] {
      var v := Flatten(fs[1..]);
      FlattenFront(fs);
      DrainWellFormed(fs[1..]);
      DrainOneCommand(fs[0], v);
      assert fs == [fs[0]] + fs[1..];
    }
  }

  lemma SameDecision(u: seq<byte>, v: seq<byte>)
    requires PeekReady(u, HOST_BUFFER)
    ensures PeekReady(u + v, HOST_BUFFER) && CommandStep(u + v) == CommandStep(u)
    ensures Served(u + v) == Served(u)
    ensures (u + v)[CommandStep(u)..] == u[CommandStep(u)..] + v
    ensures (u + v)[..CommandStep(u)] == u[..CommandStep(u)]
  {
    assert (u + v)[..|u|] == u;
    HeaderOfPrefix(u, u + v);
    assert (u + v)[..CommandStep(u)] == u[..CommandStep(u)];
  }

  /** Bare headers skipped as invalid. */
  function Skipped(d: Drained): int { d.iterations - |d.frames| }

  function Then(d: Drained, e: Drained): Drained {
    Drained(d.frames + e.frames, e.rest, d.iterations + e.iterations)
  }

  /** Later bytes never change a decision already taken: draining `u` and, once more
      bytes have followed, draining what was left, is draining everything at once. */
  lemma {:induction false} DrainInStages(u: seq<byte>, v: seq<byte>)
    ensures Drain(u + v) == Then(Drain(u), Drain(Drain(u).rest + v))
    decreases |u|
  {
    hide Drain, PeekReady, CommandStep, Served;
    if PeekReady(u, HOST_BUFFER) {
      var w := u[CommandStep(u)..];
      var d := Drain(w);
      var e := Drain(d.rest + v);
      calc {
        Drain(u + v);
        { SameDecision(u, v); DrainUnfold(u + v); }
        Then(Drained(Served(u), [], 1), Drain(w + v));
        { DrainInStages(w, v); }
        Then(Drained(Served(u), [], 1), Then(d, e));
        { assert Served(u) + (d.frames + e.frames) == (Served(u) + d.frames) + e.frames; }
        Then(Then(Drained(Served(u), [], 1), d), e);
        { DrainUnfold(u); }
        Then(Drain(u), e);
      }
      DrainUnfold(u);
    } else {
      DrainStops(u);
      assert [] + Drain(u + v).frames == Drain(u + v).frames;
    }
  }

  lemma DrainStops(u: seq<byte>)
    requires !PeekReady(u, HOST_BUFFER)
    ensures Drain(u) == Drained([], u, 0)
  {
  }

  lemma DrainUnfold(u: seq<byte>)
    requires PeekReady(u, HOST_BUFFER)
    ensures Drain(u) == Then(Drained(Served(u), [], 1), Drain(u[CommandStep(u)..]))
  {
  }

  /** Draining all of `stream` dispatches `done` and then what draining `u` dispatches. */
  ghost predicate Splits(stream: seq<byte>, done: seq<seq<byte>>, u: seq<byte>) {
    && Drain(stream).frames == done + Drain(u).frames
    && Drain(stream).rest == Drain(u).rest
    && Skipped(Drain(u)) <= Skipped(Drain(stream))
  }

  lemma SplitsExtend(stream: seq<byte>, done: seq<seq<byte>>, u: seq<byte>, v: seq<byte>)
    requires Splits(stream, done, u)
    ensures Splits(stream + v, done, u + v)
  {
    hide Drain;
    DrainInStages(stream, v);
    DrainInStages(u, v);
    var f, e := Drain(u).frames, Drain(Drain(u).rest + v).frames;
    assert done + (f + e) == (done + f) + e;
  }

  lemma AtMostOneServed(u: seq<byte>)
    requires PeekReady(u, HOST_BUFFER)
    ensures |Served(u)| <= 1
  {
  }

  lemma SplitsServe(stream: seq<byte>, done: seq<seq<byte>>, u: seq<byte>)
    requires Splits(stream, done, u) && PeekReady(u, HOST_BUFFER)
    ensures Splits(stream, done + Served(u), u[CommandStep(u)..])
  {
    hide Drain, PeekReady, CommandStep, Served;
    DrainUnfold(u);
    AtMostOneServed(u);
    var f := Drain(u[CommandStep(u)..]).frames;
    assert done + (Served(u) + f) == (done + Served(u)) + f;
  }

  /** When no header is skipped and no byte is left over, the frames are the bytes. */
  lemma {:induction false} DrainLosesNothing(u: seq<byte>)
    requires Drain(u).rest == [] && Skipped(Drain(u)) <= 0
    ensures Flatten(Drain(u).frames) == u
    decreases |u|
  {
    if PeekReady(u, HOST_BUFFER) {
      DrainUnfold(u);
      var w := u[CommandStep(u)..];
      assert Skipped(Drain(w)) >= 0;
      DrainLosesNothing(w);
      FlattenFront(Drain(u).frames);
      assert Drain(u).frames[1..] == Drain(w).frames;
    }
  }

  /** A header whose size field exceeds the host buffer blocks the stream for ever: no
      continuation makes peek return it. Any other size is served by some continuation. */
  lemma BlockedHeader(u: seq<byte>)
    requires |u| >= HEADER_SIZE
    ensures SizeField(u) > HOST_BUFFER <==> forall v: seq<byte> :: !PeekReady(u + v, HOST_BUFFER)
  {
    forall v: seq<byte> ensures ReadHeader(u + v) == ReadHeader(u) { HeaderOfPrefix(u, u + v); }
    if SizeField(u) <= HOST_BUFFER {
      var v := seq<byte>(SizeField(u), _ => 0);
      assert PeekReady(u + v, HOST_BUFFER);
    }
  }

  /** A header the validation refuses costs the stream its own sixteen bytes and nothing else,
      whatever size it announces: what follows is parsed as if it had stood alone. */
  lemma RefusedHeaderIsSkipped(h: seq<byte>, v: seq<byte>)
    requires |h| == 16 && (Le32(h, 4) < 16 || Le16(h, 0) >= 0x0B02)
    requires PeekReady(h + v, HOST_BUFFER)
    ensures Drain(h + v) == Drained(Drain(v).frames, Drain(v).rest, Drain(v).iterations + 1)
  {
    HeaderOfPrefix(h, h + v);
    assert (h + v)[16..] == v;
    assert [] + Drain(v).frames == Drain(v).frames;
  }
}
