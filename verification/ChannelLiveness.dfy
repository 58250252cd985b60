/** With well-formed writes the host gets through: enough of its own steps dispatch every
    command published before them, whatever the guest does in between. */
module ChannelLiveness {
  import opened Words
  import opened Protocol
  import opened Channel
  import opened ChannelTheorems
  import opened ChannelProgress

  ghost predicate AllWellFormed(frames: seq<seq<byte>>) {
    forall k :: 0 <= k < |frames| ==> WellFormedCommand(frames[k])
  }

  /** What the argument keeps: the ring's invariant, and every command so far well-formed. */
  ghost predicate Live(c: Config, s: Chan) {
    && Inv(c, s) && c.size > 0 && c.kind.Commands?
    && DispatchInv(s)
    && ReleasesSomething(s)
    && AllWellFormed(s.accepted)
  }

  // ---- where the reader stands ----

  /** With well-formed commands the reader's cursor is at the end of the dispatched frames. */
  lemma CommandFrames(c: Config, s: Chan)
    requires Live(c, s)
    ensures FrameInv(s)
  {
    hide Inv, Drain, Flatten, WellFormedCommand;
    var u := Stream(s)[Cursor(s)..];
    DrainWellFormed(s.accepted);
    assert s.accepted == s.delivered + Drain(u).frames;
    DrainLosesNothing(u);
    FlattenAppend(s.delivered, Drain(u).frames);
  }

  lemma {:induction false} LongerPrefix(a: seq<seq<byte>>, i: nat, j: nat)
    requires i <= j <= |a|
    ensures |Flatten(a[..i])| <= |Flatten(a[..j])|
    decreases j - i
  {
    if i < j {
      LongerPrefix(a, i, j - 1);
      assert a[..j][..j - 1] == a[..j - 1];
    }
  }

  lemma StrictlyLonger(a: seq<seq<byte>>, i: nat, j: nat)
    requires i < j <= |a| && AllWellFormed(a)
    ensures |Flatten(a[..i])| < |Flatten(a[..j])|
  {
    hide ReadHeader, Flatten;
    LongerPrefix(a, i + 1, j);
    OneMore(a[..i], a[i]);
    assert a[..i + 1] == a[..i] + [a[i]];
  }

  /** The first `goal` accepted commands, as a stream position. */
  function EndOf(s: Chan, goal: nat): nat
    requires goal <= |s.accepted|
  {
    |Flatten(s.accepted[..goal])|
  }

  /** Short of the goal and not releasing, the reader stands before a whole command that
      ends at or before the goal. */
  lemma FrameAhead(c: Config, s: Chan, goal: nat)
    requires Live(c, s) && goal <= |s.accepted| && !s.cons.Releasing? && s.taken < EndOf(s, goal)
    ensures s.taken + HEADER_SIZE <= |Stream(s)| && FrameReady(c, s)
    ensures HEADER_SIZE <= NextSize(s) && s.taken + NextSize(s) <= EndOf(s, goal)
    ensures PeekReady(Stream(s)[s.taken..], HOST_BUFFER) && CommandStep(Stream(s)[s.taken..]) == NextSize(s)
  {
    hide IndexInv, ProducerInv, ConsumerInv, DispatchInv, ReadHeader, Flatten;
    CommandFrames(c, s);
    var d := |s.delivered|;
    assert s.delivered == s.accepted[..d];
    if d >= goal { LongerPrefix(s.accepted, goal, d); }
    var f := s.accepted[d];
    NextFrame(c, s);
    LongerPrefix(s.accepted, d + 1, goal);
    OneMore(s.accepted[..d], f);
    assert s.accepted[..d + 1] == s.accepted[..d] + [f];
  }

  // ---- the measure ----

  /** Reader steps until the goal is dispatched, at most: the current frame's, and three for
      each byte after it. */
  function StepsToGoal(s: Chan, goal: nat): nat
    requires goal <= |s.accepted|
  {
    var end := EndOf(s, goal);
    if Cursor(s) >= end then 0
    else if s.cons.Releasing? then 1 + 3 * (end - Cursor(s))
    else if s.taken + HEADER_SIZE <= |Stream(s)| && s.taken + NextSize(s) <= end
    then StepsLeft(s) + 3 * (end - s.taken - NextSize(s))
    else 0
  }

  /** A step keeps the goal, up to which the stream never changes. */
  lemma GoalStays(c: Config, s: Chan, a: Action, goal: nat)
    requires c.size > 0 && goal <= |s.accepted|
    ensures goal <= |Step(c, s, a).accepted| && EndOf(Step(c, s, a), goal) == EndOf(s, goal)
    ensures s.accepted <= Step(c, s, a).accepted
  {
    hide Flatten, Step;
    StreamGrows(c, s, a);
    assert Step(c, s, a).accepted[..goal] == s.accepted[..goal];
  }

  lemma StepKeepsLive(c: Config, s: Chan, a: Action)
    requires Live(c, s) && AllWellFormed(Step(c, s, a).accepted)
    ensures Live(c, Step(c, s, a))
  {
    hide Inv, DispatchInv, Step, ReleasesSomething;
    StepKeepsInv(c, s, a);
    StepKeepsDispatch(c, s, a);
    ReleasesKept(c, s, a);
  }

  lemma CursorMovesOn(c: Config, s: Chan, a: Action)
    requires Live(c, s)
    ensures Cursor(Step(c, s, a)) >= Cursor(s)
  {
    hide Inv, DispatchInv, Slot, LoadByte, Flatten, ReadHeader, AllWellFormed;
  }

  /** The reader's last step over a frame: it is dispatched, to be released whole. */
  lemma DispatchStepsDown(c: Config, s: Chan, goal: nat)
    requires Live(c, s) && goal <= |s.accepted| && Cursor(s) < EndOf(s, goal)
    requires s.cons.ReadingBody? && |s.cons.got| >= HEADER_SIZE && |s.cons.got| >= SizeField(s.cons.got)
    ensures var s' := ConsumeStep(c, s);
            && goal <= |s'.accepted| && Cursor(s') == s.taken + NextSize(s)
            && StepsToGoal(s', goal) < StepsToGoal(s, goal)
  {
    hide Inv, DispatchInv, Flatten, ReadHeader, AllWellFormed, ConsumeStep, NextSize, CommandStep, Served;
    FrameAhead(c, s, goal);
    DispatchStep(c, s);
    GoalStays(c, s, Consume, goal);
  }

  lemma ReleaseStepsDown(c: Config, s: Chan, goal: nat)
    requires Live(c, s) && goal <= |s.accepted| && Cursor(s) < EndOf(s, goal) && s.cons.Releasing?
    requires Live(c, ConsumeStep(c, s))
    ensures goal <= |ConsumeStep(c, s).accepted|
    ensures StepsToGoal(ConsumeStep(c, s), goal) < StepsToGoal(s, goal)
  {
    hide Inv, DispatchInv, Flatten, AllWellFormed, NextSize, Slot;
    GoalStays(c, s, Consume, goal);
    FrameAhead(c, ConsumeStep(c, s), goal);
  }

  lemma ReadStepsDown(c: Config, s: Chan, goal: nat)
    requires Live(c, s) && goal <= |s.accepted| && Cursor(s) < EndOf(s, goal) && !s.cons.Releasing?
    requires s.cons.ReadingBody? ==> |s.cons.got| < SizeField(s.cons.got) || |s.cons.got| < HEADER_SIZE
    ensures goal <= |ConsumeStep(c, s).accepted|
    ensures StepsToGoal(ConsumeStep(c, s), goal) < StepsToGoal(s, goal)
  {
    hide Inv, DispatchInv, Flatten, AllWellFormed, NextSize, StepsLeft, ConsumeStep;
    FrameAhead(c, s, goal);
    GoalStays(c, s, Consume, goal);
    StillReading(c, s);
    ReaderStepsDown(c, s);
    HeaderStable(c, s, Consume);
  }

  lemma StillReading(c: Config, s: Chan)
    requires c.size > 0 && !s.cons.Releasing?
    requires s.cons.ReadingBody? ==> |s.cons.got| < HEADER_SIZE || |s.cons.got| < SizeField(s.cons.got)
    ensures ConsumeStep(c, s).taken == s.taken && !ConsumeStep(c, s).cons.Releasing?
  {
    hide Distance, LoadByte, ReadHeader;
  }

  lemma WriterKeepsGoal(c: Config, s: Chan, a: Action, goal: nat)
    requires Live(c, s) && goal <= |s.accepted| && Cursor(s) < EndOf(s, goal) && !a.Consume?
    ensures goal <= |Step(c, s, a).accepted|
    ensures StepsToGoal(Step(c, s, a), goal) == StepsToGoal(s, goal)
  {
    hide Inv, DispatchInv, Flatten, AllWellFormed, NextSize, StepsLeft, ReleasesSomething, Step;
    GoalStays(c, s, a, goal);
    WriterLeavesReader(c, s, a);
    if !s.cons.Releasing? {
      FrameAhead(c, s, goal);
      WriterKeepsStepsLeft(c, s, a);
      HeaderStable(c, s, a);
    }
  }

  lemma WriterLeavesReader(c: Config, s: Chan, a: Action)
    requires c.size > 0 && !a.Consume?
    ensures Step(c, s, a).cons == s.cons && Step(c, s, a).taken == s.taken
  {
    hide Slot, WriteAccepted;
  }

  /** A step towards the goal. */
  lemma GoalStep(c: Config, s: Chan, a: Action, goal: nat)
    requires Live(c, s) && goal <= |s.accepted| && Cursor(s) < EndOf(s, goal)
    requires Live(c, Step(c, s, a))
    ensures goal <= |Step(c, s, a).accepted|
    ensures StepsToGoal(Step(c, s, a), goal) <= StepsToGoal(s, goal) - (if a.Consume? then 1 else 0)
  {
    hide Live, Inv, EndOf, StepsToGoal, ConsumeStep, ProduceStep, BeginStep, SizeField;
    assert c.size > 0 by { LiveFacts(c, s); }
    if !a.Consume? { WriterKeepsGoal(c, s, a, goal); }
    else if s.cons.Releasing? { ReleaseStepsDown(c, s, goal); }
    else if s.cons.ReadingBody? && |s.cons.got| >= HEADER_SIZE && |s.cons.got| >= SizeField(s.cons.got) {
      DispatchStepsDown(c, s, goal);
    } else { ReadStepsDown(c, s, goal); }
  }

  lemma LiveFacts(c: Config, s: Chan)
    requires Live(c, s)
    ensures c.size > 0 && AllWellFormed(s.accepted) && s.taken <= Cursor(s) <= |Stream(s)|
  {
    hide Inv, Splits;
  }

  // ---- runs ----

  lemma {:induction false} GoalReached(c: Config, s: Chan, schedule: seq<Action>, goal: nat)
    requires c.size > 0 && Live(c, s) && goal <= |s.accepted|
    requires AllWellFormed(Run(c, s, schedule).accepted)
    requires ReaderTurns(schedule) >= StepsToGoal(s, goal)
    ensures Live(c, Run(c, s, schedule))
    ensures goal <= |Run(c, s, schedule).accepted| && EndOf(Run(c, s, schedule), goal) == EndOf(s, goal)
    ensures s.accepted <= Run(c, s, schedule).accepted
    ensures Cursor(Run(c, s, schedule)) >= EndOf(s, goal)
    decreases |schedule|
  {
    hide Live, EndOf, StepsToGoal, Step, Cursor, WellFormedCommand;
    if schedule == [] {
      NoStepsLeft(c, s, goal);
    } else {
      var a := schedule[0];
      var s' := Step(c, s, a);
      RunTakesMore(c, s', schedule[1..]);
      StepKeepsLive(c, s, a);
      GoalStays(c, s, a, goal);
      CursorMovesOn(c, s, a);
      if Cursor(s) < EndOf(s, goal) { GoalStep(c, s, a, goal); } else { Arrived(s', goal); }
      GoalReached(c, s', schedule[1..], goal);
    }
  }

  lemma Arrived(s: Chan, goal: nat)
    requires goal <= |s.accepted| && Cursor(s) >= EndOf(s, goal)
    ensures StepsToGoal(s, goal) == 0
  {
  }

  /** No steps left means that the goal is dispatched. */
  lemma NoStepsLeft(c: Config, s: Chan, goal: nat)
    requires Live(c, s) && goal <= |s.accepted| && StepsToGoal(s, goal) == 0
    ensures Cursor(s) >= EndOf(s, goal)
  {
    hide Flatten, Inv, NextSize;
    if Cursor(s) < EndOf(s, goal) && !s.cons.Releasing? {
      FrameAhead(c, s, goal);
      StepsLeftBound(c, s);
    }
  }

  /** Three reader steps for each unread byte are enough. */
  lemma ThreeStepsAByte(c: Config, s: Chan)
    requires Live(c, s)
    ensures EndOf(s, |s.accepted|) == |Stream(s)| >= s.taken
    ensures StepsToGoal(s, |s.accepted|) <= 3 * (|Stream(s)| - s.taken)
  {
    hide Flatten, Inv, NextSize, DispatchInv, AllWellFormed;
    LiveFacts(c, s);
    assert s.accepted[..|s.accepted|] == s.accepted;
    if Cursor(s) < |Stream(s)| && !s.cons.Releasing? {
      FrameAhead(c, s, |s.accepted|);
      StepsLeftBound(c, s);
    }
  }

  /** Past the end of the goal, the goal is dispatched. */
  lemma DispatchedUpTo(c: Config, s: Chan, goal: nat)
    requires Live(c, s) && goal <= |s.accepted| && Cursor(s) >= EndOf(s, goal)
    ensures s.accepted[..goal] <= s.delivered <= s.accepted
  {
    hide Inv, DispatchInv, ReadHeader;
    CommandFrames(c, s);
    var d := |s.delivered|;
    assert s.delivered == s.accepted[..d];
    if d < goal { StrictlyLonger(s.accepted, d, goal); }
  }

  /** From any reachable state: when every accepted write is a well-formed command, a schedule
      that gives the reader three steps for each byte then unread dispatches every command
      accepted so far, in order, whatever the writer does meanwhile. */
  lemma EveryCommandIsDispatched(c: Config, before: seq<Action>, after: seq<Action>)
    requires ValidConfig(c) && c.kind.Commands? && c.size > 0
    requires AllWellFormed(Run(c, Initial(c), before + after).accepted)
    requires var s := Run(c, Initial(c), before);
             ReaderTurns(after) >= 3 * (|Stream(s)| - s.taken)
    ensures var s, t := Run(c, Initial(c), before), Run(c, Initial(c), before + after);
            s.accepted <= t.delivered <= t.accepted
  {
    hide Live, Run, StepsToGoal, EndOf, Cursor, AllWellFormed, Stream, Initial, ReaderTurns;
    var s := Run(c, Initial(c), before);
    RunAppend(c, Initial(c), before, after);
    RunTakesMore(c, s, after);
    StartsLive(c);
    FrontWellFormed(s.accepted, Run(c, s, after).accepted);
    RunKeepsLive(c, Initial(c), before);
    ThreeStepsAByte(c, s);
    GoalReached(c, s, after, |s.accepted|);
    var t := Run(c, s, after);
    DispatchedUpTo(c, t, |s.accepted|);
    assert t.accepted[..|s.accepted|] == s.accepted;
  }

  lemma FrontWellFormed(a: seq<seq<byte>>, b: seq<seq<byte>>)
    requires a <= b && AllWellFormed(b)
    ensures AllWellFormed(a)
  {
    hide WellFormedCommand;
    forall k | 0 <= k < |a| ensures WellFormedCommand(a[k]) { assert a[k] == b[k]; }
  }

  lemma StartsLive(c: Config)
    requires ValidConfig(c) && c.kind.Commands?
    ensures Live(c, Initial(c))
  {
    hide Inv, DispatchInv;
    InitialInv(c);
    InitialDispatch(c);
  }

  lemma {:induction false} RunKeepsLive(c: Config, s: Chan, schedule: seq<Action>)
    requires c.size > 0 && Live(c, s) && AllWellFormed(Run(c, s, schedule).accepted)
    ensures Live(c, Run(c, s, schedule))
    decreases |schedule|
  {
    hide Live, Step, WellFormedCommand;
    if schedule != [] {
      RunTakesMore(c, Step(c, s, schedule[0]), schedule[1..]);
      StepKeepsLive(c, s, schedule[0]);
      RunKeepsLive(c, Step(c, s, schedule[0]), schedule[1..]);
    }
  }
}
