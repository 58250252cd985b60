/** Progress of the reader, frames on the completion ring, and the two programs run alone. */
module ChannelProgress {
  import opened Words
  import opened Protocol
  import opened Channel
  import opened ChannelTheorems

  // ---- progress ----

  /** Size field of the frame at the reader's cursor; meaningful with a header unread. */
  function NextSize(s: Chan): nat
    requires s.taken + HEADER_SIZE <= |Stream(s)|
  {
    SizeField(Stream(s)[s.taken..])
  }

  /** The next frame is completely published and fits the reader's buffer. */
  predicate FrameReady(c: Config, s: Chan) {
    s.taken <= |Stream(s)| && PeekReady(Stream(s)[s.taken..], c.bufSize)
  }

  function Max(a: nat, b: nat): nat { if a < b then b else a }

  /** Reader steps left until head moves past the ready frame; a poll whose tail was
      loaded before the frame was published first fails and starts over. */
  function StepsLeft(s: Chan): nat
    requires s.taken + HEADER_SIZE <= |Stream(s)|
  {
    var m := Max(HEADER_SIZE, NextSize(s));
    match s.cons
    case Polling => m + 4
    case ReadingHeader(avail, _, got) =>
      if NextSize(s) > avail then Max(HEADER_SIZE, |got|) - |got| + m + 5
      else Max(m, |got|) - |got| + 3
    case ReadingBody(_, _, got) => Max(m, |got|) - |got| + 2
    case Releasing(_, _) => 1
  }

  lemma HeaderStable(c: Config, s: Chan, a: Action)
    requires Inv(c, s) && s.taken + HEADER_SIZE <= |Stream(s)| && Step(c, s, a).taken == s.taken
    ensures var s' := Step(c, s, a);
            && s.taken + HEADER_SIZE <= |Stream(s')| && NextSize(s') == NextSize(s)
            && (FrameReady(c, s) ==> FrameReady(c, s'))
  {
    StreamGrows(c, s, a);
    var s' := Step(c, s, a);
    assert Stream(s')[s.taken..][..|Stream(s)| - s.taken] == Stream(s)[s.taken..];
    HeaderOfPrefix(Stream(s)[s.taken..], Stream(s')[s.taken..]);
  }

  /** The header the reader copied is the header in the stream. */
  lemma HeaderSeen(c: Config, s: Chan)
    requires Inv(c, s) && (s.cons.ReadingHeader? || s.cons.ReadingBody?) && |s.cons.got| >= HEADER_SIZE
    ensures SizeField(s.cons.got) == NextSize(s)
  {
    var got := s.cons.got;
    assert Stream(s)[s.taken..][..|got|] == got;
    HeaderOfPrefix(got, Stream(s)[s.taken..]);
  }

  lemma ReaderStepsDown(c: Config, s: Chan)
    requires Inv(c, s) && FrameReady(c, s) && ConsumeStep(c, s).taken == s.taken
    requires s.cons.Releasing? ==> s.cons.count > 0
    ensures Stream(ConsumeStep(c, s)) == Stream(s)
    ensures StepsLeft(ConsumeStep(c, s)) < StepsLeft(s)
  {
    hide Holds;
    DistanceIsUnread(c, s);
    match s.cons
    case Polling =>
    case ReadingHeader(_, _, got) =>
      if |got| < HEADER_SIZE { LoadByteReadsStream(c, s, |got|); } else { HeaderSeen(c, s); }
    case ReadingBody(_, _, got) =>
      HeaderSeen(c, s);
      if |got| < SizeField(got) { LoadByteReadsStream(c, s, |got|); }
    case Releasing(_, _) =>
  }

  lemma WriterKeepsStepsLeft(c: Config, s: Chan, a: Action)
    requires Inv(c, s) && s.taken + HEADER_SIZE <= |Stream(s)| && !a.Consume?
    ensures Step(c, s, a).cons == s.cons && Step(c, s, a).taken == s.taken
    ensures s.taken + HEADER_SIZE <= |Stream(Step(c, s, a))|
    ensures StepsLeft(Step(c, s, a)) == StepsLeft(s)
  {
    HeaderStable(c, s, a);
  }

  function ReaderTurns(schedule: seq<Action>): nat {
    if schedule == [] then 0
    else (if schedule[0].Consume? then 1 else 0) + ReaderTurns(schedule[1..])
  }

  /** A release in progress will move head. */
  ghost predicate ReleasesSomething(s: Chan) { s.cons.Releasing? ==> s.cons.count > 0 }

  /** The reader passes something with the next frame: comp_read releases the size field,
      command_loop never less than a header. */
  predicate NextPasses(c: Config, s: Chan) {
    c.kind.Completions? ==> s.taken + HEADER_SIZE <= |Stream(s)| && NextSize(s) > 0
  }

  lemma ReleasesKept(c: Config, s: Chan, a: Action)
    requires Inv(c, s) && ReleasesSomething(s) && NextPasses(c, s)
    ensures ReleasesSomething(Step(c, s, a))
  {
    hide Holds, ReadHeader, Flatten, Slot, LoadByte;
    if a.Consume? && s.cons.ReadingBody? { HeaderSeen(c, s); }
  }

  lemma StepsLeftBound(c: Config, s: Chan)
    requires Inv(c, s) && FrameReady(c, s)
    ensures 1 <= StepsLeft(s) <= Max(HEADER_SIZE, NextSize(s)) + HEADER_SIZE + 5
  {
    hide Holds;
  }

  lemma ReadyStep(c: Config, s: Chan, a: Action)
    requires Inv(c, s) && ReleasesSomething(s) && FrameReady(c, s) && NextPasses(c, s)
    requires Step(c, s, a).taken == s.taken
    ensures Inv(c, Step(c, s, a)) && ReleasesSomething(Step(c, s, a)) && FrameReady(c, Step(c, s, a))
    ensures NextPasses(c, Step(c, s, a))
    ensures StepsLeft(Step(c, s, a)) <= StepsLeft(s) - (if a.Consume? then 1 else 0)
  {
    hide Holds;
    StepKeepsInv(c, s, a);
    ReleasesKept(c, s, a);
    HeaderStable(c, s, a);
    if a.Consume? { ReaderStepsDown(c, s); } else { WriterKeepsStepsLeft(c, s, a); }
  }

  /** The reader is wait-free, on either ring: once a frame is ready, head is past it after
      at most max(16, size) + 21 of the reader's own steps, whatever the writer does in
      between. A completion with size field zero is the one frame that is never passed. */
  lemma {:induction false} ReaderAdvances(c: Config, s: Chan, schedule: seq<Action>)
    requires c.size > 0
    requires Inv(c, s) && ReleasesSomething(s) && FrameReady(c, s) && NextPasses(c, s)
    requires ReaderTurns(schedule) >= StepsLeft(s)
    ensures Run(c, s, schedule).taken > s.taken
    decreases |schedule|
  {
    hide Inv, StepsLeft, FrameReady, Step, NextPasses;
    StepsLeftBound(c, s);
    var s' := Step(c, s, schedule[0]);
    StreamGrows(c, s, schedule[0]);
    if s'.taken > s.taken {
      RunTakesMore(c, s', schedule[1..]);
    } else {
      ReadyStep(c, s, schedule[0]);
      ReaderAdvances(c, s', schedule[1..]);
    }
  }

  lemma {:induction false} RunTakesMore(c: Config, s: Chan, schedule: seq<Action>)
    requires c.size > 0
    ensures s.taken <= Run(c, s, schedule).taken && s.accepted <= Run(c, s, schedule).accepted
    decreases |schedule|
  {
    if schedule != [] {
      StreamGrows(c, s, schedule[0]);
      RunTakesMore(c, Step(c, s, schedule[0]), schedule[1..]);
    }
  }

  /** A frame that can never be ready: longer than the reader's buffer or than the ring. */
  predicate Oversized(c: Config, size: nat) { size > c.bufSize || size >= c.size }

  /** Once the cursor stands before an oversized size field, head never moves again. */
  lemma {:induction false} OversizedBlocksForEver(c: Config, s: Chan, schedule: seq<Action>)
    requires Inv(c, s) && !s.cons.Releasing? && !s.cons.ReadingBody?
    requires s.taken + HEADER_SIZE <= |Stream(s)| && Oversized(c, NextSize(s))
    ensures Run(c, s, schedule).taken == s.taken && Run(c, s, schedule).head == s.head
    ensures Run(c, s, schedule).delivered == s.delivered
    decreases |schedule|
  {
    hide Inv, Step, NextSize, Oversized, Flatten;
    InvFacts(c, s);
    if schedule != [] {
      var a := schedule[0];
      var s' := Step(c, s, a);
      OversizedStep(c, s, a);
      OversizedBlocksForEver(c, s', schedule[1..]);
    }
  }

  lemma OversizedStep(c: Config, s: Chan, a: Action)
    requires Inv(c, s) && !s.cons.Releasing? && !s.cons.ReadingBody?
    requires s.taken + HEADER_SIZE <= |Stream(s)| && Oversized(c, NextSize(s))
    ensures var s' := Step(c, s, a);
            && Inv(c, s') && !s'.cons.Releasing? && !s'.cons.ReadingBody?
            && s'.taken == s.taken && s'.head == s.head && s'.delivered == s.delivered
            && s.taken + HEADER_SIZE <= |Stream(s')| && NextSize(s') == NextSize(s)
  {
    hide Holds, Flatten, ProducerInv;
    StepKeepsInv(c, s, a);
    if a.Consume? && s.cons.ReadingHeader? && |s.cons.got| == HEADER_SIZE {
      HeaderSeen(c, s);
    }
    HeaderStable(c, s, a);
  }

  /** A completion whose size field is zero is handed over again and again: head never moves. */
  lemma {:induction false} ZeroSizeIsNeverPassed(c: Config, s: Chan, schedule: seq<Action>)
    requires c.size > 0 && Inv(c, s) && c.kind.Completions? && (s.cons.Releasing? ==> s.cons.count == 0)
    requires s.taken + HEADER_SIZE <= |Stream(s)| && NextSize(s) == 0
    ensures Run(c, s, schedule).taken == s.taken && Run(c, s, schedule).head == s.head
    decreases |schedule|
  {
    hide Inv, Step, NextSize, Flatten;
    if schedule != [] {
      ZeroSizeStep(c, s, schedule[0]);
      ZeroSizeIsNeverPassed(c, Step(c, s, schedule[0]), schedule[1..]);
    }
  }

  lemma ZeroSizeStep(c: Config, s: Chan, a: Action)
    requires c.size > 0 && Inv(c, s) && c.kind.Completions? && (s.cons.Releasing? ==> s.cons.count == 0)
    requires s.taken + HEADER_SIZE <= |Stream(s)| && NextSize(s) == 0
    ensures var s' := Step(c, s, a);
            && Inv(c, s') && (s'.cons.Releasing? ==> s'.cons.count == 0)
            && s'.taken == s.taken && s'.head == s.head
            && s.taken + HEADER_SIZE <= |Stream(s')| && NextSize(s') == 0
  {
    hide Holds, Flatten, ProducerInv, ReadHeader, LoadByte, Slot;
    StepKeepsInv(c, s, a);
    if a.Consume? && s.cons.ReadingBody? { HeaderSeen(c, s); }
    if a.Consume? && s.cons.Releasing? { HeadStays(c, s); }
    HeaderStable(c, s, a);
  }

  lemma HeadStays(c: Config, s: Chan)
    requires Inv(c, s) && s.cons.Releasing? && s.cons.count == 0
    ensures Slot(s.cons.at + 0, c.size) == s.head
  {
    hide Holds, Flatten, Slot;
    SlotOfPosition(c, s.taken, s.head, 0);
  }

  // ---- frames on either ring ----

  /** What comp_write is given by the host: a whole frame that the guest's buffer holds. */
  predicate WellFormedFrame(c: Config, f: seq<byte>) {
    HEADER_SIZE <= |f| <= c.bufSize && SizeField(f) == |f|
  }

  /** Frames already handed over are a prefix of the accepted ones. */
  ghost predicate FrameInv(s: Chan) {
    && s.delivered <= s.accepted
    && Cursor(s) == |Flatten(s.delivered)|
  }

  lemma FramePosition(s: Chan)
    requires FrameInv(s)
    ensures Cursor(s) <= |Stream(s)|
    ensures Stream(s)[Cursor(s)..] == Flatten(s.accepted[|s.delivered|..])
  {
    var k := |s.delivered|;
    FlattenAppend(s.delivered, s.accepted[k..]);
    assert s.accepted == s.delivered + s.accepted[k..];
  }

  lemma NextFrame(c: Config, s: Chan)
    requires FrameInv(s) && |s.delivered| < |s.accepted|
    requires WellFormedFrame(c, s.accepted[|s.delivered|])
    ensures var f := s.accepted[|s.delivered|];
            && Cursor(s) + |f| <= |Stream(s)|
            && Stream(s)[Cursor(s)..][..|f|] == f
            && ReadHeader(Stream(s)[Cursor(s)..]) == ReadHeader(f)
  {
    var k := |s.delivered|;
    var f, v := s.accepted[k], Flatten(s.accepted[k + 1..]);
    FramePosition(s);
    assert Stream(s)[Cursor(s)..] == f + v by {
      FlattenFront(s.accepted[k..]);
      assert s.accepted[k..][1..] == s.accepted[k + 1..];
    }
    assert (f + v)[..|f|] == f;
    HeaderOfPrefix(f, f + v);
  }

  lemma FrameHandedOver(c: Config, s: Chan)
    requires Inv(c, s) && c.kind.Completions? && FrameInv(s) && s.cons.ReadingBody?
    requires forall f :: f in s.accepted ==> WellFormedFrame(c, f)
    requires |s.cons.got| >= SizeField(s.cons.got)
    ensures s.delivered < s.accepted
    ensures s.cons.got == s.accepted[|s.delivered|] && Released(c, s.cons.got) == |s.cons.got|
  {
    hide Holds, ReadHeader, Flatten;
    var got := s.cons.got;
    FramePosition(s);
    if |s.delivered| == |s.accepted| {
      assert s.accepted[|s.delivered|..] == [];
      assert Flatten([]) == [] by { EmptyStream(); }
      assert false;
    }
    NextFrame(c, s);
    HeaderSeen(c, s);
    assert Stream(s)[s.taken..][..|got|] == got;
  }

  lemma EmptyStream()
    ensures Flatten([]) == []
  {
  }

  lemma StepKeepsFrames(c: Config, s: Chan, a: Action)
    requires Inv(c, s) && c.kind.Completions? && FrameInv(s)
    requires forall f :: f in s.accepted ==> WellFormedFrame(c, f)
    ensures FrameInv(Step(c, s, a))
  {
    hide Inv, WellFormedFrame, ReadHeader, Flatten, Slot, Distance, LoadByte, Released, WriteAccepted;
    InvFacts(c, s);
    if a.Consume? && s.cons.ReadingBody? && |s.cons.got| >= HEADER_SIZE && |s.cons.got| >= SizeField(s.cons.got) {
      FrameHandedOver(c, s);
      OneMore(s.delivered, s.cons.got);
    }
  }

  lemma OneMore(fs: seq<seq<byte>>, f: seq<byte>)
    ensures Flatten(fs + [f]) == Flatten(fs) + f
  {
    assert (fs + [f])[..|fs|] == fs;
  }

  // ---- a frame that fits can always be completed and passed ----

  function WriterTurn(s: Chan): Action { if s.prod.Copying? then Produce else Begin([0]) }

  /** Steps left until the write in progress is published. */
  function WriterLeft(p: Producer): nat {
    if p.Copying? && p.i <= |p.data| then |p.data| - p.i + 1 else 3
  }

  /** With the reader standing still, the writer can publish until the frame announced at
      the cursor is complete. */
  lemma {:induction false} WriterCanComplete(c: Config, s: Chan) returns (schedule: seq<Action>)
    requires c.size > 0 && Inv(c, s) && c.kind.Commands?
    requires s.taken + HEADER_SIZE <= |Stream(s)| && !Oversized(c, NextSize(s))
    ensures var s' := Run(c, s, schedule);
            && Inv(c, s') && s'.cons == s.cons && s'.taken == s.taken && FrameReady(c, s')
    decreases s.taken + NextSize(s) - |Stream(s)|, WriterLeft(s.prod)
  {
    hide Inv, Step, Run, NextSize, Flatten;
    if s.taken + NextSize(s) <= |Stream(s)| {
      schedule := [];
      RunFirst(c, s, Produce, []);
      CompleteIsReady(c, s);
    } else {
      WriterStep(c, s);
      var rest := WriterCanComplete(c, Step(c, s, WriterTurn(s)));
      schedule := [WriterTurn(s)] + rest;
      RunFirst(c, s, WriterTurn(s), rest);
    }
  }

  lemma CompleteIsReady(c: Config, s: Chan)
    requires s.taken + HEADER_SIZE <= |Stream(s)| && !Oversized(c, NextSize(s))
    requires s.taken + NextSize(s) <= |Stream(s)|
    ensures FrameReady(c, s)
  {
    hide ReadHeader, Flatten;
  }

  lemma WriterStep(c: Config, s: Chan)
    requires c.size > 0 && Inv(c, s) && c.kind.Commands?
    requires s.taken + HEADER_SIZE <= |Stream(s)| < s.taken + NextSize(s) && !Oversized(c, NextSize(s))
    ensures var s' := Step(c, s, WriterTurn(s));
            && Inv(c, s') && s'.cons == s.cons && s'.taken == s.taken
            && s.taken + HEADER_SIZE <= |Stream(s')| && NextSize(s') == NextSize(s)
            && |Stream(s')| >= |Stream(s)|
            && (|Stream(s')| == |Stream(s)| ==> WriterLeft(s'.prod) < WriterLeft(s.prod))
  {
    hide Holds, ReadHeader, Flatten, Slot, LoadByte, ConsumerInv, ConsumeStep, IndexInv, BeginStep, ProduceStep;
    StepKeepsInv(c, s, WriterTurn(s));
    WriterKeepsStepsLeft(c, s, WriterTurn(s));
    HeaderStable(c, s, WriterTurn(s));
    StreamGrows(c, s, WriterTurn(s));
    RingSizeBounds(c.size);
    WriterStepGrows(c, s);
  }

  lemma WriterStepGrows(c: Config, s: Chan)
    requires Inv(c, s) && c.kind.Commands? && |Stream(s)| + 1 < s.taken + c.size
    requires c.size >= 2
    ensures s.prod.Copying? && s.prod.i == |s.prod.data| ==> |Stream(ProduceStep(c, s))| > |Stream(s)|
    ensures s.prod.Copying? && s.prod.i < |s.prod.data| ==>
              var s' := ProduceStep(c, s);
              Stream(s') == Stream(s) && s'.prod == s.prod.(i := s.prod.i + 1)
    ensures s.prod.Resting? ==> BeginStep(c, s, [0]).prod == Copying([0], s.tail, 0)
  {
    hide Holds, Flatten, Slot, ConsumerInv;
    DistanceIsUnread(c, s);
    if s.prod.Copying? {
      if s.prod.i < |s.prod.data| { StoreKeepsInv(c, s); } else { PublishKeepsInv(c, s); }
    }
  }

  function Turns(n: nat, a: Action): (t: seq<Action>)
    ensures |t| == n && forall i :: 0 <= i < n ==> t[i] == a
  {
    seq(n, _ => a)
  }

  lemma {:induction false} AllReaderTurns(n: nat)
    ensures ReaderTurns(Turns(n, Consume)) == n
  {
    if n > 0 {
      assert Turns(n, Consume)[1..] == Turns(n - 1, Consume);
      AllReaderTurns(n - 1);
    }
  }

  /** Exactly the oversized size fields stop the command ring for good: with a header
      unread and the reader about to poll, no schedule ever moves head again if and only if
      the size field exceeds the host buffer or the ring's capacity. */
  lemma StuckExactlyWhenOversized(c: Config, s: Chan)
    requires c.size > 0
    requires Inv(c, s) && c.kind.Commands? && s.cons.Polling?
    requires s.taken + HEADER_SIZE <= |Stream(s)|
    ensures Oversized(c, NextSize(s))
            <==> forall schedule :: Run(c, s, schedule).taken == s.taken
  {
    if Oversized(c, NextSize(s)) {
      forall schedule ensures Run(c, s, schedule).taken == s.taken {
        OversizedBlocksForEver(c, s, schedule);
      }
    } else {
      var writes := WriterCanComplete(c, s);
      var s1 := Run(c, s, writes);
      StepsLeftBound(c, s1);
      var turns := Turns(StepsLeft(s1), Consume);
      AllReaderTurns(StepsLeft(s1));
      ReaderAdvances(c, s1, turns);
      RunAppend(c, s, writes, turns);
      assert Run(c, s, writes + turns).taken != s.taken;
    }
  }

  // ---- each program alone, in one piece ----

  /** The copy loop of a write: `n` bytes of `data` stored from index `from` on. */
  function CopyIn(bytes: seq<byte>, size: nat, from: nat, data: seq<byte>, n: nat): (r: seq<byte>)
    requires |bytes| == size > 0 && n <= |data|
    ensures |r| == size
  {
    if n == 0 then bytes
    else CopyIn(bytes, size, from, data, n - 1)[Slot(from + n - 1, size) := data[n - 1]]
  }

  function AfterWrite(c: Config, s: Chan, data: seq<byte>): Chan
    requires |s.bytes| == c.size > 0
  {
    s.(bytes := CopyIn(s.bytes, c.size, s.tail, data, |data|),
       tail := Slot(s.tail + |data|, c.size),
       accepted := s.accepted + [data])
  }

  lemma {:induction false} CopyLoop(c: Config, s: Chan, data: seq<byte>, n: nat)
    requires |s.bytes| == c.size > 0 && n <= |data| && s.prod == Copying(data, s.tail, 0)
    ensures Run(c, s, Turns(n, Produce))
            == s.(bytes := CopyIn(s.bytes, c.size, s.tail, data, n), prod := Copying(data, s.tail, n))
  {
    hide Run, Slot;
    if n == 0 {
      RunFirst(c, s, Produce, []);
      assert Turns(0, Produce) == [];
    } else {
      CopyLoop(c, s, data, n - 1);
      assert Turns(n, Produce) == Turns(n - 1, Produce) + [Produce];
      RunAppend(c, s, Turns(n - 1, Produce), [Produce]);
      RunFirst(c, Run(c, s, Turns(n - 1, Produce)), Produce, []);
    }
  }

  lemma RunFirst(c: Config, s: Chan, a: Action, rest: seq<Action>)
    requires c.size > 0
    ensures Run(c, s, [a] + rest) == Run(c, Step(c, s, a), rest)
    ensures Run(c, s, []) == s && Run(c, s, [a]) == Step(c, s, a)
  {
    assert ([a] + rest)[1..] == rest;
    assert [a][1..] == [];
  }

  /** A whole write with nobody in between. */
  lemma WriteAlone(c: Config, s: Chan, data: seq<byte>)
    requires |s.bytes| == c.size > 0 && s.prod.Resting? && WriteAccepted(c, s, |data|)
    ensures Run(c, s, [Begin(data)] + Turns(|data| + 1, Produce)) == AfterWrite(c, s, data)
  {
    hide Run, CopyIn, WriteAccepted;
    var n := |data|;
    var s1 := s.(prod := Copying(data, s.tail, 0));
    assert BeginStep(c, s, data) == s1;
    RunFirst(c, s, Begin(data), Turns(n + 1, Produce));
    assert Turns(n + 1, Produce) == Turns(n, Produce) + [Produce];
    RunAppend(c, s1, Turns(n, Produce), [Produce]);
    CopyLoop(c, s1, data, n);
    RunFirst(c, Run(c, s1, Turns(n, Produce)), Produce, []);
  }

  /** The reader's poll up to the point where a frame lies whole in its buffer. */
  function AfterRead(c: Config, s: Chan): Chan
    requires c.size > 0 && FrameReady(c, s)
  {
    var u := Stream(s)[s.taken..];
    var f := u[..Max(HEADER_SIZE, NextSize(s))];
    s.(head := Slot(s.head + Released(c, f), c.size),
       delivered := s.delivered + (if Delivers(c, f) then [f] else []),
       taken := s.taken + Released(c, f))
  }

  lemma OneMoreTurn(c: Config, s: Chan, n: nat)
    requires c.size > 0
    ensures Run(c, s, Turns(n + 1, Consume)) == ConsumeStep(c, Run(c, s, Turns(n, Consume)))
  {
    var s1 := Run(c, s, Turns(n, Consume));
    assert Turns(n + 1, Consume) == Turns(n, Consume) + [Consume];
    RunAppend(c, s, Turns(n, Consume), [Consume]);
    assert Run(c, s1, [Consume]) == ConsumeStep(c, s1);
  }

  function HeaderState(s: Chan, n: nat): Chan
    requires s.taken + n <= |Stream(s)|
  {
    s.(cons := ReadingHeader(|Stream(s)| - s.taken, s.head, Stream(s)[s.taken..s.taken + n]))
  }

  lemma PollStep(c: Config, s: Chan)
    requires Inv(c, s) && s.cons.Polling? && s.taken + HEADER_SIZE <= |Stream(s)|
    ensures ConsumeStep(c, s) == HeaderState(s, 0)
  {
    hide Holds, Distance, Flatten;
    DistanceIsUnread(c, s);
    assert Stream(s)[s.taken..s.taken + 0] == [];
  }

  lemma HeaderStep(c: Config, s: Chan, n: nat)
    requires Inv(c, s) && s.taken + HEADER_SIZE <= |Stream(s)| && n < HEADER_SIZE
    ensures ConsumeStep(c, HeaderState(s, n)) == HeaderState(s, n + 1)
  {
    hide Holds, LoadByte, Flatten;
    LoadByteReadsStream(c, s, n);
  }

  lemma {:induction false} HeaderLoop(c: Config, s: Chan, n: nat)
    requires c.size > 0
    requires Inv(c, s) && s.cons.Polling? && s.taken + HEADER_SIZE <= |Stream(s)| && n <= HEADER_SIZE
    ensures Run(c, s, Turns(n + 1, Consume)) == HeaderState(s, n)
  {
    hide Inv, Run, ConsumeStep, HeaderState, Flatten;
    OneMoreTurn(c, s, n);
    if n == 0 {
      NoTurns(c, s);
      PollStep(c, s);
    } else {
      HeaderLoop(c, s, n - 1);
      HeaderStep(c, s, n - 1);
    }
  }

  lemma NoTurns(c: Config, s: Chan)
    requires c.size > 0
    ensures Run(c, s, Turns(0, Consume)) == s
  {
  }

  function BodyState(s: Chan, n: nat): Chan
    requires s.taken + n <= |Stream(s)|
  {
    s.(cons := ReadingBody(|Stream(s)| - s.taken, s.head, Stream(s)[s.taken..s.taken + n]))
  }

  lemma BodyStep(c: Config, s: Chan, n: nat)
    requires Inv(c, s) && FrameReady(c, s) && HEADER_SIZE <= n < NextSize(s)
    ensures ConsumeStep(c, BodyState(s, n)) == BodyState(s, n + 1)
  {
    hide Holds, ReadHeader, LoadByte, Flatten;
    var got := Stream(s)[s.taken..s.taken + n];
    assert Stream(s)[s.taken..][..n] == got;
    HeaderOfPrefix(got, Stream(s)[s.taken..]);
    LoadByteReadsStream(c, s, n);
  }

  lemma DecideStep(c: Config, s: Chan)
    requires Inv(c, s) && s.cons.Polling? && FrameReady(c, s)
    ensures Run(c, s, Turns(HEADER_SIZE + 2, Consume)) == BodyState(s, HEADER_SIZE)
  {
    hide Holds, Run, ReadHeader, Flatten;
    OneMoreTurn(c, s, HEADER_SIZE + 1);
    HeaderLoop(c, s, HEADER_SIZE);
    var got := Stream(s)[s.taken..s.taken + HEADER_SIZE];
    assert Stream(s)[s.taken..][..HEADER_SIZE] == got;
    HeaderOfPrefix(got, Stream(s)[s.taken..]);
  }

  lemma {:induction false} BodyLoop(c: Config, s: Chan, n: nat)
    requires c.size > 0
    requires Inv(c, s) && s.cons.Polling? && FrameReady(c, s)
    requires HEADER_SIZE <= n <= Max(HEADER_SIZE, NextSize(s))
    ensures Run(c, s, Turns(n + 2, Consume)) == BodyState(s, n)
  {
    hide Inv, Run, ConsumeStep, BodyState;
    if n == HEADER_SIZE {
      DecideStep(c, s);
    } else {
      BodyLoop(c, s, n - 1);
      OneMoreTurn(c, s, n + 1);
      BodyStep(c, s, n - 1);
    }
  }

  /** A whole poll, dispatch and release with nobody in between. */
  lemma ReadAlone(c: Config, s: Chan)
    requires c.size > 0 && s.taken + HEADER_SIZE <= |Stream(s)|
    requires Inv(c, s) && s.cons.Polling? && FrameReady(c, s)
    ensures Run(c, s, Turns(Max(HEADER_SIZE, NextSize(s)) + 4, Consume)) == AfterRead(c, s)
  {
    hide Inv, Run, AfterRead, FrameReady, BodyState, ConsumeStep;
    var n := Max(HEADER_SIZE, NextSize(s));
    ReadyBounds(c, s);
    BodyLoop(c, s, n);
    OneMoreTurn(c, s, n + 2);
    OneMoreTurn(c, s, n + 3);
    DispatchAndRelease(c, s);
  }

  lemma ReadyBounds(c: Config, s: Chan)
    requires Inv(c, s) && FrameReady(c, s)
    ensures c.size > 0 && s.taken + Max(HEADER_SIZE, NextSize(s)) <= |Stream(s)|
  {
  }

  lemma DispatchAndRelease(c: Config, s: Chan)
    requires Inv(c, s) && s.cons.Polling? && FrameReady(c, s)
    requires s.taken + Max(HEADER_SIZE, NextSize(s)) <= |Stream(s)|
    ensures ConsumeStep(c, ConsumeStep(c, BodyState(s, Max(HEADER_SIZE, NextSize(s))))) == AfterRead(c, s)
  {
    hide IndexInv, ProducerInv, ConsumerInv, ReadHeader, CmdValidate;
    var n := Max(HEADER_SIZE, NextSize(s));
    var f := Stream(s)[s.taken..][..n];
    assert Stream(s)[s.taken..s.taken + n] == f;
    HeaderOfPrefix(f, Stream(s)[s.taken..]);
  }

  // ---- the stuck ring, reached ----

  /** A 16-byte write that cmd_write accepts, on a new ring, with 65537 in its size field:
      no command is ever dispatched, whatever either side does next. */
  lemma OneWriteSticksTheRing(c: Config, rest: seq<Action>)
    requires ValidConfig(c) && c.kind.Commands? && c.size >= 32
    ensures var f := InitHeader(CMD_HELLO, HOST_BUFFER + 1, 0);
            var writes := [Begin(f)] + Turns(|f| + 1, Produce);
            && Run(c, Initial(c), writes).accepted == [f]
            && Run(c, Initial(c), writes + rest).head == 0
            && Run(c, Initial(c), writes + rest).delivered == []
  {
    hide Inv, Run, ReadHeader, InitHeader, CopyIn;
    var f := InitHeader(CMD_HELLO, HOST_BUFFER + 1, 0);
    var writes := [Begin(f)] + Turns(|f| + 1, Produce);
    InitialInv(c);
    FirstWriteFits(c, |f|);
    WriteAlone(c, Initial(c), f);
    var s := Run(c, Initial(c), writes);
    RunKeepsInv(c, Initial(c), writes);
    RunAppend(c, Initial(c), writes, rest);
    OneMore([], f);
    EmptyStream();
    assert [] + [f] == [f];
    assert f[0..] == f;
    HeaderRoundTrip(CMD_HELLO, HOST_BUFFER + 1, 0, []);
    assert f + [] == f;
    OversizedBlocksForEver(c, s, rest);
  }

  lemma FirstWriteFits(c: Config, n: nat)
    requires ValidConfig(c) && c.size > 0 && 0 < n <= c.size / 2
    ensures WriteAccepted(c, Initial(c), n)
  {
    InitialInv(c);
    DistanceIsUnread(c, Initial(c));
  }
}
