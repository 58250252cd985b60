/** What every interleaving of the two ring programs guarantees. */
module ChannelTheorems {
  import opened Words
  import opened Protocol
  import opened Channel

  // ---- safety of every interleaving ----

  /** In every state of every schedule the masked index difference is the true number of
      unread bytes, at most size - 1, so a full ring is never taken for an empty one. */
  lemma FullIsNeverEmpty(c: Config, schedule: seq<Action>)
    requires ValidConfig(c)
    ensures c.size > 0
    ensures var s := Run(c, Initial(c), schedule);
            && s.taken <= |Stream(s)|
            && Distance(c, s.head, s.tail) == |Stream(s)| - s.taken <= c.size - 1
            && (s.head == s.tail <==> s.taken == |Stream(s)|)
  {
    InitialInv(c);
    RunKeepsInv(c, Initial(c), schedule);
    var s := Run(c, Initial(c), schedule);
    DistanceIsUnread(c, s);
    if s.head == s.tail { SameSlot(s.taken, |Stream(s)|, c.size); }
  }

  /** Bytes still unread after a step are the bytes that were there before it: no store of
      the producer, however stale the head it checked against, reaches an unread slot. */
  lemma UnreadBytesSurvive(c: Config, schedule: seq<Action>, a: Action, p: nat)
    requires ValidConfig(c) && c.size > 0
    requires var s' := Run(c, Initial(c), schedule + [a]);
             s'.taken <= p < |Stream(Run(c, Initial(c), schedule))|
    ensures var s, s' := Run(c, Initial(c), schedule), Run(c, Initial(c), schedule + [a]);
            && |s.bytes| == |s'.bytes| == c.size
            && s'.bytes[p % c.size] == s.bytes[p % c.size] == Stream(s)[p]
  {
    hide Inv, Run, Step, Initial, Flatten;
    InitialInv(c);
    var s := Run(c, Initial(c), schedule);
    RunKeepsInv(c, Initial(c), schedule);
    RunAppend(c, Initial(c), schedule, [a]);
    RunSingle(c, s, a);
    StepKeepsInv(c, s, a);
    StreamGrows(c, s, a);
    HeldInRing(c, s, p);
    HeldInRing(c, Step(c, s, a), p);
  }

  lemma RunSingle(c: Config, s: Chan, a: Action)
    requires c.size > 0
    ensures Run(c, s, [a]) == Step(c, s, a)
  {
    assert [a][1..] == [];
  }

  lemma HeldInRing(c: Config, s: Chan, p: nat)
    requires Inv(c, s) && s.taken <= p < |Stream(s)|
    ensures |s.bytes| == c.size && s.bytes[p % c.size] == Stream(s)[p]
  {
    hide Flatten;
    assert Stream(s)[s.taken..][p - s.taken] == Stream(s)[p];
    assert s.taken + (p - s.taken) == p;
  }

  lemma StreamGrows(c: Config, s: Chan, a: Action)
    requires c.size > 0
    ensures s.accepted <= Step(c, s, a).accepted && Stream(s) <= Stream(Step(c, s, a))
    ensures s.taken <= Step(c, s, a).taken
  {
    if a.Produce? && s.prod.Copying? && s.prod.i >= |s.prod.data| {
      FlattenAppend(s.accepted, [s.prod.data]);
    }
  }

  /** Every byte the reader has copied equals the byte written at that stream position. */
  lemma CopiedBytesAreTheStream(c: Config, schedule: seq<Action>)
    requires ValidConfig(c) && c.size > 0
    ensures var s := Run(c, Initial(c), schedule);
            s.cons.ReadingHeader? || s.cons.ReadingBody? ==>
              && s.taken + |s.cons.got| <= |Stream(s)|
              && s.cons.got == Stream(s)[s.taken..s.taken + |s.cons.got|]
  {
    InitialInv(c);
    RunKeepsInv(c, Initial(c), schedule);
  }

  lemma {:induction false} RunAppend(c: Config, s: Chan, p: seq<Action>, q: seq<Action>)
    requires c.size > 0
    ensures Run(c, s, p + q) == Run(c, Run(c, s, p), q)
    decreases |p|
  {
    if p == [] {
      assert p + q == q;
    } else {
      assert (p + q)[1..] == p[1..] + q;
      RunAppend(c, Step(c, s, p[0]), p[1..], q);
    }
  }

  // ---- the command ring refines a FIFO of commands ----

  /** Unread bytes as they lie in the ring, from the reader's next frame on. */
  function Unread(c: Config, s: Chan): seq<byte>
    requires c.size > 0 && |s.bytes| == c.size
  {
    seq(Distance(c, s.head, s.tail), i => s.bytes[Slot(s.head + i, c.size)])
  }

  function Pending(c: Config, s: Chan): seq<byte>
    requires c.size > 0 && |s.bytes| == c.size
  {
    var u := Unread(c, s);
    if s.cons.Releasing? && s.cons.count <= |u| then u[s.cons.count..] else u
  }

  lemma UnreadIsStream(c: Config, s: Chan)
    requires Inv(c, s)
    ensures Unread(c, s) == Stream(s)[s.taken..]
  {
    hide Flatten, Slot, Distance, ConsumerInv, ProducerInv;
    DistanceIsUnread(c, s);
    forall i | 0 <= i < |Stream(s)| - s.taken
      ensures Slot(s.head + i, c.size) < c.size
              && s.bytes[Slot(s.head + i, c.size)] == Stream(s)[s.taken..][i]
    {
      SlotOfPosition(c, s.taken, s.head, i);
    }
  }

  /** Position of the next frame to dispatch. */
  function Cursor(s: Chan): nat {
    s.taken + (if s.cons.Releasing? then s.cons.count else 0)
  }

  /** The dispatched commands are those a lone reader would have found so far. */
  ghost predicate DispatchInv(s: Chan) {
    && Cursor(s) <= |Stream(s)|
    && Splits(Stream(s), s.delivered, Stream(s)[Cursor(s)..])
  }

  lemma PublishKeepsDispatch(c: Config, s: Chan)
    requires Inv(c, s) && DispatchInv(s) && s.prod.Copying? && s.prod.i == |s.prod.data|
    ensures DispatchInv(ProduceStep(c, s))
  {
    hide Splits, Holds;
    var s', data := ProduceStep(c, s), s.prod.data;
    PublishKeepsInv(c, s);
    SplitsExtend(Stream(s), s.delivered, Stream(s)[Cursor(s)..], data);
    assert Stream(s')[Cursor(s)..] == Stream(s)[Cursor(s)..] + data;
  }

  lemma DispatchStep(c: Config, s: Chan)
    requires Inv(c, s) && c.kind.Commands? && s.cons.ReadingBody?
    requires |s.cons.got| >= SizeField(s.cons.got)
    ensures var u, s' := Stream(s)[s.taken..], ConsumeStep(c, s);
            && PeekReady(u, HOST_BUFFER)
            && s' == s.(cons := Releasing(s.cons.from, CommandStep(u)), delivered := s.delivered + Served(u))
  {
    hide Holds, ReadHeader, ProducerInv, Flatten;
    var u, got := Stream(s)[s.taken..], s.cons.got;
    assert u[..|got|] == got;
    HeaderOfPrefix(got, u);
  }

  lemma ConsumeKeepsDispatch(c: Config, s: Chan)
    requires Inv(c, s) && c.kind.Commands? && DispatchInv(s)
    ensures DispatchInv(ConsumeStep(c, s))
  {
    hide Splits, Holds, CommandStep, Served;
    if s.cons.ReadingBody? && |s.cons.got| >= SizeField(s.cons.got) {
      var s', u := ConsumeStep(c, s), Stream(s)[s.taken..];
      DispatchStep(c, s);
      SplitsServe(Stream(s), s.delivered, u);
      assert Stream(s)[Cursor(s')..] == u[CommandStep(u)..];
    }
  }

  /** Steps that neither publish nor read leave the history as it is. */
  lemma WritingKeepsDispatch(c: Config, s: Chan, a: Action)
    requires c.size > 0 && DispatchInv(s) && !a.Consume?
    requires a.Produce? && s.prod.Copying? ==> s.prod.i < |s.prod.data|
    ensures DispatchInv(Step(c, s, a))
  {
    hide Splits, Slot, Flatten, WriteAccepted;
  }

  lemma StepKeepsDispatch(c: Config, s: Chan, a: Action)
    requires Inv(c, s) && c.kind.Commands? && DispatchInv(s)
    ensures DispatchInv(Step(c, s, a))
  {
    hide IndexInv, ConsumerInv, DispatchInv, ConsumeStep, ProduceStep, BeginStep;
    if a.Consume? { ConsumeKeepsDispatch(c, s); }
    else if a.Produce? && s.prod.Copying? && s.prod.i == |s.prod.data| { PublishKeepsDispatch(c, s); }
    else { WritingKeepsDispatch(c, s, a); }
  }

  lemma {:induction false} RunKeepsDispatch(c: Config, s: Chan, schedule: seq<Action>)
    requires Inv(c, s) && c.kind.Commands? && DispatchInv(s)
    ensures Inv(c, Run(c, s, schedule)) && DispatchInv(Run(c, s, schedule))
    decreases |schedule|
  {
    if schedule != [] {
      StepKeepsInv(c, s, schedule[0]);
      StepKeepsDispatch(c, s, schedule[0]);
      RunKeepsDispatch(c, Step(c, s, schedule[0]), schedule[1..]);
    }
  }

  /** Whatever bytes the guest writes and however the two sides interleave, the commands
      dispatched so far, followed by those a drain of the bytes still in the ring would
      dispatch, are exactly the commands found by splitting all accepted bytes at once. */
  lemma DispatchIsScheduleFree(c: Config, schedule: seq<Action>)
    requires ValidConfig(c) && c.kind.Commands?
    ensures c.size > 0
    ensures var s := Run(c, Initial(c), schedule);
            && |s.bytes| == c.size
            && Splits(Flatten(s.accepted), s.delivered, Pending(c, s))
  {
    hide Inv, DispatchInv, Run, Splits, Pending, Flatten;
    InitialInv(c);
    InitialDispatch(c);
    RunKeepsDispatch(c, Initial(c), schedule);
    PendingIsSplit(c, Run(c, Initial(c), schedule));
  }

  lemma InitialDispatch(c: Config)
    ensures DispatchInv(Initial(c))
  {
    assert Flatten([])[0..] == Flatten([]);
  }

  /** What is left in the ring is the stream from the reader's next frame on. */
  lemma PendingIsSplit(c: Config, s: Chan)
    requires Inv(c, s) && DispatchInv(s)
    ensures |s.bytes| == c.size > 0 && Splits(Stream(s), s.delivered, Pending(c, s))
  {
    hide Splits, Unread, Flatten, Holds;
    UnreadIsStream(c, s);
    if s.cons.Releasing? {
      assert Stream(s)[s.taken..][s.cons.count..] == Stream(s)[Cursor(s)..];
    }
  }

  /** When every accepted write is a well-formed command, the commands dispatched followed
      by those still pending in the ring are the accepted commands: none lost, repeated,
      reordered or cut, in any interleaving. */
  lemma RingIsAFifo(c: Config, schedule: seq<Action>)
    requires ValidConfig(c) && c.kind.Commands? && c.size > 0
    requires forall f :: f in Run(c, Initial(c), schedule).accepted ==> WellFormedCommand(f)
    ensures var s := Run(c, Initial(c), schedule);
            && |s.bytes| == c.size
            && s.delivered + Drain(Pending(c, s)).frames == s.accepted
            && Pending(c, s) == Flatten(s.accepted[|s.delivered|..])
  {
    hide Drain, Run;
    var s := Run(c, Initial(c), schedule);
    DispatchIsScheduleFree(c, schedule);
    DrainWellFormed(s.accepted);
    assert s.accepted[|s.delivered|..] == Drain(Pending(c, s)).frames;
    DrainLosesNothing(Pending(c, s));
  }
}
