/** One shared-memory ring as a step-level protocol between a producer and a consumer.
    Each step touches at most one shared location: an index or one ring byte. A schedule
    is any sequence of actions, so a statement about all schedules is one about all
    interleavings. `accepted`, `delivered` and `taken` are history: the writes that
    returned 0, the frames handed to the reader, and the running count of bytes released
    through `head`. */
module Channel {
  import opened Words
  import opened Protocol

  /** The two rings differ in the writer's size check and in what the reader does with a
      frame: command_loop validates and may skip a bare header, comp_read does neither. */
  datatype Kind = Commands | Completions

  datatype Config = Config(kind: Kind, size: nat, bufSize: nat)

  ghost predicate ValidConfig(c: Config) {
    && RingSize(c.size)
    && c.bufSize >= HEADER_SIZE
    && (c.kind.Commands? ==> c.bufSize == HOST_BUFFER)
  }

  datatype Producer =
    | Resting
    | Copying(data: seq<byte>, start: u32, i: nat)

  datatype Consumer =
    | Polling
    | ReadingHeader(avail: nat, from: u32, got: seq<byte>)
    | ReadingBody(avail: nat, from: u32, got: seq<byte>)
    | Releasing(at: u32, count: nat)

  datatype Chan = Chan(
    bytes: seq<byte>, head: u32, tail: u32,
    prod: Producer, cons: Consumer,
    accepted: seq<seq<byte>>, delivered: seq<seq<byte>>, taken: nat)

  datatype Action = Begin(data: seq<byte>) | Produce | Consume

  // ---- the two programs, one shared access per step ----

  function Distance(c: Config, head: u32, tail: u32): nat
    requires c.size > 0
  {
    And(U32(tail - head), c.size - 1)
  }

  function Space(c: Config, s: Chan): int
    requires c.size > 0
  {
    c.size - 1 - Distance(c, s.head, s.tail)
  }

  /** cmd_write's own size check; comp_write has none. */
  predicate SizeAllowed(c: Config, n: nat) {
    c.kind.Commands? ==> 0 < n <= c.size / 2
  }

  predicate WriteAccepted(c: Config, s: Chan, n: nat)
    requires c.size > 0
  {
    SizeAllowed(c, n) && Space(c, s) >= n
  }

  /** Load head, compare the space, and either start copying or return -1. */
  function BeginStep(c: Config, s: Chan, data: seq<byte>): Chan
    requires c.size > 0
  {
    if s.prod.Resting? && WriteAccepted(c, s, |data|)
    then s.(prod := Copying(data, s.tail, 0))
    else s
  }

  /** Copy one byte, or publish everything with the single store of tail. */
  function ProduceStep(c: Config, s: Chan): Chan
    requires c.size > 0
  {
    match s.prod
    case Resting => s
    case Copying(data, start, i) =>
      if i < |data| then
        var at := Slot(start + i, c.size);
        if at < |s.bytes| then  // always, in a ring of c.size bytes
            s.(bytes := s.bytes[at := data[i]], prod := Copying(data, start, i + 1))
        else s
      else
        s.(tail := Slot(start + |data|, c.size), prod := Resting, accepted := s.accepted + [data])
  }

  /** Whether the reader hands `frame` on. */
  predicate Delivers(c: Config, frame: seq<byte>)
    requires |frame| >= HEADER_SIZE
  {
    c.kind.Commands? ==> CmdValidate(ReadHeader(frame), HOST_BUFFER)
  }

  /** Bytes released for `frame`. */
  function Released(c: Config, frame: seq<byte>): nat
    requires |frame| >= HEADER_SIZE
  {
    if Delivers(c, frame) then SizeField(frame) else HEADER_SIZE
  }

  function LoadByte(c: Config, bytes: seq<byte>, from: u32, k: nat): seq<byte>
    requires c.size > 0
  {
    var at := Slot(from + k, c.size);
    if at < |bytes| then [bytes[at]] else []
  }

  /** Peek (load tail; copy the header; decide; copy the rest), dispatch, store head. */
  function ConsumeStep(c: Config, s: Chan): Chan
    requires c.size > 0
  {
    match s.cons
    case Polling =>
      var avail := Distance(c, s.head, s.tail);
      if avail < HEADER_SIZE then s else s.(cons := ReadingHeader(avail, s.head, []))
    case ReadingHeader(avail, from, got) =>
      if |got| < HEADER_SIZE then
        s.(cons := ReadingHeader(avail, from, got + LoadByte(c, s.bytes, from, |got|)))
      else if SizeField(got) > avail || SizeField(got) > c.bufSize then
        s.(cons := Polling)
      else
        s.(cons := ReadingBody(avail, from, got))
    case ReadingBody(avail, from, got) =>
      if |got| < HEADER_SIZE then s
      else if |got| < SizeField(got) then
        s.(cons := ReadingBody(avail, from, got + LoadByte(c, s.bytes, from, |got|)))
      else
        s.(cons := Releasing(from, Released(c, got)),
           delivered := s.delivered + (if Delivers(c, got) then [got] else []))
    case Releasing(at, n) =>
      s.(head := Slot(at + n, c.size), cons := Polling, taken := s.taken + n)
  }

  function Step(c: Config, s: Chan, a: Action): Chan
    requires c.size > 0
  {
    match a
    case Begin(data) => BeginStep(c, s, data)
    case Produce => ProduceStep(c, s)
    case Consume => ConsumeStep(c, s)
  }

  function Run(c: Config, s: Chan, schedule: seq<Action>): Chan
    requires c.size > 0
    decreases |schedule|
  {
    if schedule == [] then s else Run(c, Step(c, s, schedule[0]), schedule[1..])
  }

  function Initial(c: Config): Chan {
    Chan(seq(c.size, _ => 0), 0, 0, Resting, Polling, [], [], 0)
  }

  // ---- what the ring holds ----

  function Stream(s: Chan): seq<byte> { Flatten(s.accepted) }

  /** The ring stores `data` from running position `from` on. */
  ghost predicate Holds(bytes: seq<byte>, size: nat, from: nat, data: seq<byte>)
    requires |bytes| == size > 0
  {
    forall j {:trigger data[j]} :: 0 <= j < |data| ==> bytes[(from + j) % size] == data[j]
  }

  lemma HoldsAfterStore(bytes: seq<byte>, size: nat, from: nat, data: seq<byte>, q: nat, b: byte)
    requires |bytes| == size > 0 && Holds(bytes, size, from, data)
    requires from + |data| <= q < from + size
    ensures Holds(bytes[q % size := b], size, from, data)
  {
    forall j {:trigger data[j]} | 0 <= j < |data|
      ensures bytes[q % size := b][(from + j) % size] == data[j]
    {
      if (from + j) % size == q % size { SameSlot(from + j, q, size); }
    }
  }

  lemma HoldsConcat(bytes: seq<byte>, size: nat, from: nat, d: seq<byte>, e: seq<byte>)
    requires |bytes| == size > 0 && Holds(bytes, size, from, d) && Holds(bytes, size, from + |d|, e)
    ensures Holds(bytes, size, from, d + e)
  {
    forall j {:trigger (d + e)[j]} | 0 <= j < |d + e|
      ensures bytes[(from + j) % size] == (d + e)[j]
    {
      if j < |d| { assert (d + e)[j] == d[j]; }
      else { assert (d + e)[j] == e[j - |d|]; assert from + |d| + (j - |d|) == from + j; }
    }
  }

  lemma HoldsOne(bytes: seq<byte>, size: nat, q: nat, b: byte)
    requires |bytes| == size > 0 && bytes[q % size] == b
    ensures Holds(bytes, size, q, [b])
  {
  }

  lemma HoldsDrop(bytes: seq<byte>, size: nat, from: nat, d: seq<byte>, n: nat)
    requires |bytes| == size > 0 && Holds(bytes, size, from, d) && n <= |d|
    ensures Holds(bytes, size, from + n, d[n..])
  {
    forall j {:trigger d[n..][j]} | 0 <= j < |d[n..]|
      ensures bytes[(from + n + j) % size] == d[n..][j]
    {
      assert d[n..][j] == d[n + j];
      assert from + n + j == from + (n + j);
    }
  }

  // ---- the invariant ----

  ghost predicate IndexInv(c: Config, s: Chan)
    requires c.size > 0
  {
    && |s.bytes| == c.size
    && s.taken <= |Stream(s)| < s.taken + c.size
    && s.head == s.taken % c.size
    && s.tail == |Stream(s)| % c.size
    && Holds(s.bytes, c.size, s.taken, Stream(s)[s.taken..])
  }

  ghost predicate ProducerInv(c: Config, s: Chan)
    requires c.size > 0 && IndexInv(c, s)
  {
    match s.prod
    case Resting => true
    case Copying(data, start, i) =>
      && start == s.tail
      && i <= |data|
      && |Stream(s)| + |data| < s.taken + c.size
      && SizeAllowed(c, |data|)
      && Holds(s.bytes, c.size, |Stream(s)|, data[..i])
  }

  ghost predicate ConsumerInv(c: Config, s: Chan)
    requires c.size > 0 && IndexInv(c, s)
  {
    match s.cons
    case Polling => true
    case ReadingHeader(avail, from, got) =>
      && from == s.head
      && HEADER_SIZE <= avail <= |Stream(s)| - s.taken
      && |got| <= HEADER_SIZE
      && got == Stream(s)[s.taken..s.taken + |got|]
    case ReadingBody(avail, from, got) =>
      && from == s.head
      && HEADER_SIZE <= |got| <= avail <= |Stream(s)| - s.taken
      && SizeField(got) <= avail
      && SizeField(got) <= c.bufSize
      && (|got| <= SizeField(got) || |got| == HEADER_SIZE)
      && got == Stream(s)[s.taken..s.taken + |got|]
    case Releasing(at, n) =>
      && at == s.head
      && n <= |Stream(s)| - s.taken
  }

  ghost predicate Inv(c: Config, s: Chan) {
    && ValidConfig(c)
    && c.size > 0
    && IndexInv(c, s)
    && ProducerInv(c, s)
    && ConsumerInv(c, s)
  }

  lemma InvFacts(c: Config, s: Chan)
    requires Inv(c, s)
    ensures |s.bytes| == c.size > 0 && s.taken <= |Stream(s)|
  {
  }

  lemma DistanceIsUnread(c: Config, s: Chan)
    requires ValidConfig(c) && c.size > 0 && IndexInv(c, s)
    ensures Distance(c, s.head, s.tail) == |Stream(s)| - s.taken <= c.size - 1
  {
    MaskedDistance(s.taken, |Stream(s)|, c.size);
  }

  /** Index `start + k`, masked, is the slot of running position `pos + k`. */
  lemma SlotOfPosition(c: Config, pos: nat, start: nat, k: nat)
    requires ValidConfig(c) && c.size > 0 && start == pos % c.size
    ensures Slot(start + k, c.size) == (pos + k) % c.size < c.size
  {
    SlotIsMod(start + k, c.size);
    ModAdd(pos, k, c.size);
  }

  lemma InitialInv(c: Config)
    requires ValidConfig(c)
    ensures c.size > 0 && Inv(c, Initial(c))
  {
    RingSizeBounds(c.size);
  }

  lemma BeginKeepsInv(c: Config, s: Chan, data: seq<byte>)
    requires Inv(c, s)
    ensures Inv(c, BeginStep(c, s, data))
  {
    DistanceIsUnread(c, s);
  }

  /** The state after one byte has been copied to running position |Stream| + i. */
  function Stored(c: Config, s: Chan): Chan
    requires c.size > 0 && |s.bytes| == c.size && s.prod.Copying? && s.prod.i < |s.prod.data|
  {
    s.(bytes := s.bytes[(|Stream(s)| + s.prod.i) % c.size := s.prod.data[s.prod.i]],
       prod := Copying(s.prod.data, s.prod.start, s.prod.i + 1))
  }

  lemma StoreShape(c: Config, s: Chan)
    requires Inv(c, s) && s.prod.Copying? && s.prod.i < |s.prod.data|
    ensures ProduceStep(c, s) == Stored(c, s)
  {
    hide Holds, ConsumerInv, Slot, Flatten;
    SlotOfPosition(c, |Stream(s)|, s.prod.start, s.prod.i);
  }

  lemma StoredBytes(c: Config, s: Chan)
    requires Inv(c, s) && s.prod.Copying? && s.prod.i < |s.prod.data|
    ensures var bytes := Stored(c, s).bytes;
            && |bytes| == c.size
            && Holds(bytes, c.size, s.taken, Stream(s)[s.taken..])
            && Holds(bytes, c.size, |Stream(s)|, s.prod.data[..s.prod.i + 1])
  {
    hide Holds, ConsumerInv, Flatten;
    var data, i, w := s.prod.data, s.prod.i, |Stream(s)|;
    var bytes := Stored(c, s).bytes;
    HoldsAfterStore(s.bytes, c.size, s.taken, Stream(s)[s.taken..], w + i, data[i]);
    HoldsAfterStore(s.bytes, c.size, w, data[..i], w + i, data[i]);
    HoldsOne(bytes, c.size, w + i, data[i]);
    HoldsConcat(bytes, c.size, w, data[..i], [data[i]]);
    assert data[..i] + [data[i]] == data[..i + 1];
  }

  lemma StoreKeepsInv(c: Config, s: Chan)
    requires Inv(c, s) && s.prod.Copying? && s.prod.i < |s.prod.data|
    ensures ProduceStep(c, s) == Stored(c, s) && Inv(c, Stored(c, s))
  {
    hide Holds, Flatten, ReadHeader, ProduceStep;
    StoreShape(c, s);
    StoredBytes(c, s);
  }

  lemma PublishKeepsInv(c: Config, s: Chan)
    requires Inv(c, s) && s.prod.Copying? && s.prod.i == |s.prod.data|
    ensures Inv(c, ProduceStep(c, s))
    ensures Stream(ProduceStep(c, s)) == Stream(s) + s.prod.data
  {
    hide Holds, ReadHeader, Slot;
    var Copying(data, start, i) := s.prod;
    var s' := ProduceStep(c, s);
    var w := |Stream(s)|;
    assert s'.accepted[..|s.accepted|] == s.accepted;
    assert Stream(s') == Stream(s) + data;
    SlotOfPosition(c, w, start, |data|);
    assert data[..i] == data;
    HoldsConcat(s.bytes, c.size, s.taken, Stream(s)[s.taken..], data);
    assert Stream(s')[s.taken..] == Stream(s)[s.taken..] + data;
    if s.cons.ReadingHeader? || s.cons.ReadingBody? {
      var got := s.cons.got;
      assert Stream(s')[s.taken..s.taken + |got|] == Stream(s)[s.taken..s.taken + |got|];
    }
  }

  lemma LoadByteReadsStream(c: Config, s: Chan, k: nat)
    requires ValidConfig(c) && c.size > 0 && IndexInv(c, s) && s.taken + k < |Stream(s)|
    ensures LoadByte(c, s.bytes, s.head, k) == [Stream(s)[s.taken + k]]
    ensures Stream(s)[s.taken..s.taken + k] + LoadByte(c, s.bytes, s.head, k)
            == Stream(s)[s.taken..s.taken + k + 1]
  {
    SlotOfPosition(c, s.taken, s.head, k);
    assert Stream(s)[s.taken..][k] == Stream(s)[s.taken + k];
  }

  lemma ReadKeepsInv(c: Config, s: Chan)
    requires Inv(c, s) && (s.cons.Polling? || s.cons.ReadingHeader?)
    ensures Inv(c, ConsumeStep(c, s))
  {
    hide Holds, ReadHeader, Slot, Flatten, Distance, LoadByte;
    DistanceIsUnread(c, s);
    if s.cons.ReadingHeader? && |s.cons.got| < HEADER_SIZE {
      LoadByteReadsStream(c, s, |s.cons.got|);
    }
  }

  lemma BodyKeepsInv(c: Config, s: Chan)
    requires Inv(c, s) && s.cons.ReadingBody?
    ensures Inv(c, ConsumeStep(c, s))
  {
    hide Holds, ReadHeader, Slot, Flatten, LoadByte;
    var got := s.cons.got;
    if |got| < SizeField(got) {
      LoadByteReadsStream(c, s, |got|);
      var got' := got + LoadByte(c, s.bytes, s.head, |got|);
      HeaderOfPrefix(got, got');
    }
  }

  lemma ReleaseKeepsInv(c: Config, s: Chan)
    requires Inv(c, s) && s.cons.Releasing?
    ensures Inv(c, ConsumeStep(c, s))
  {
    var n := s.cons.count;
    SlotOfPosition(c, s.taken, s.head, n);
    HoldsDrop(s.bytes, c.size, s.taken, Stream(s)[s.taken..], n);
    assert Stream(s)[s.taken..][n..] == Stream(s)[s.taken + n..];
  }

  lemma StepKeepsInv(c: Config, s: Chan, a: Action)
    requires Inv(c, s)
    ensures Inv(c, Step(c, s, a))
  {
    match a
    case Begin(data) => BeginKeepsInv(c, s, data);
    case Produce =>
      if s.prod.Copying? {
        if s.prod.i < |s.prod.data| { StoreKeepsInv(c, s); } else { PublishKeepsInv(c, s); }
      }
    case Consume =>
      if s.cons.ReadingBody? { BodyKeepsInv(c, s); }
      else if s.cons.Releasing? { ReleaseKeepsInv(c, s); }
      else { ReadKeepsInv(c, s); }
  }

  lemma {:induction false} RunKeepsInv(c: Config, s: Chan, schedule: seq<Action>)
    requires Inv(c, s)
    ensures Inv(c, Run(c, s, schedule))
    decreases |schedule|
  {
    if schedule != [] {
      StepKeepsInv(c, s, schedule[0]);
      RunKeepsInv(c, Step(c, s, schedule[0]), schedule[1..]);
    }
  }
}
