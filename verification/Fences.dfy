/** Submissions, fences and resets: read off the trace of Vulkan calls. */
module Fences {
  import opened Options
  import opened Vulkan
  import opened Tracker
  import opened Processor
  import opened Ownership
  import opened Recordings

  // ---- what the trace says of a fence and of a submission ----

  /** A fence is unused, then pending with a submission, then signalled once waited for. */
  datatype FenceStage = Unused | Pending | Signalled

  function FenceStageOf(trace: seq<Call>, f: Object): FenceStage {
    if trace == [] then Unused
    else
      FenceNext(trace[|trace| - 1], f, FenceStageOf(trace[..|trace| - 1], f))
  }

  function FenceNext(c: Call, f: Object, stage: FenceStage): FenceStage {
    match c
    case QueueSubmit(_, g) => if g == f then Pending else stage
    case WaitForFences(_, g) => if g == f then Signalled else stage
    case ResetFences(_, g) => if g == f then Unused else stage
    case _ => stage
  }

  /** The fence of the latest submission of `cb`. */
  function LatestFence(trace: seq<Call>, cb: Object): Option<Object> {
    if trace == [] then None
    else
      var c := trace[|trace| - 1];
      if c.QueueSubmit? && c.cb == cb then Some(c.fence) else LatestFence(trace[..|trace| - 1], cb)
  }

  /** The latest submission of `cb` has not been waited for. */
  function InFlight(trace: seq<Call>, cb: Object): bool {
    if trace == [] then false
    else
      var before, c := trace[..|trace| - 1], trace[|trace| - 1];
      if c.QueueSubmit? && c.cb == cb then true
      else if c.WaitForFences? && LatestFence(before, cb) == Some(c.fence) then false
      else InFlight(before, cb)
  }

  /** A submission takes an unused fence, a wait is for a pending one, only a signalled fence
      is reset, and a command buffer is reset after the wait for its latest submission. */
  predicate FenceTurn(before: seq<Call>, c: Call) {
    && (c.QueueSubmit? ==> FenceStageOf(before, c.fence) == Unused)
    && (c.WaitForFences? ==> FenceStageOf(before, c.fence) == Pending)
    && (c.ResetFences? ==> FenceStageOf(before, c.fence) == Signalled)
    && (c.ResetCommandBuffer? ==> LatestFence(before, c.cb).Some? && !InFlight(before, c.cb))
  }

  ghost predicate FencesInTurn(trace: seq<Call>) {
    forall k :: 0 <= k < |trace| ==> FenceTurn(trace[..k], trace[k])
  }

  /** Between commands: every fence unused, no submission in flight. */
  ghost predicate AllWaited(trace: seq<Call>) {
    && (forall f :: FenceStageOf(trace, f) == Unused)
    && (forall cb :: !InFlight(trace, cb))
  }

  lemma OneMoreTurn(trace: seq<Call>, c: Call)
    ensures FencesInTurn(trace) && FenceTurn(trace, c) ==> FencesInTurn(trace + [c])
    ensures forall f :: FenceStageOf(trace + [c], f) == FenceNext(c, f, FenceStageOf(trace, f))
    ensures forall cb :: LatestFence(trace + [c], cb)
                         == if c.QueueSubmit? && c.cb == cb then Some(c.fence) else LatestFence(trace, cb)
    ensures forall cb :: InFlight(trace + [c], cb)
                         == if c.QueueSubmit? && c.cb == cb then true
                            else if c.WaitForFences? && LatestFence(trace, cb) == Some(c.fence) then false
                            else InFlight(trace, cb)
  {
    hide FenceTurn, FenceNext;
    var all := trace + [c];
    assert all[..|trace|] == trace;
    assert forall k :: 0 <= k < |trace| ==> all[..k] == trace[..k] && all[k] == trace[k];
  }

  /** Calls that concern no fence and reset nothing. */
  predicate Quiet(c: Call) { !c.QueueSubmit? && !c.WaitForFences? && !c.ResetFences? && !c.ResetCommandBuffer? }

  lemma {:induction false} QuietAppend(trace: seq<Call>, calls: seq<Call>)
    requires forall k :: 0 <= k < |calls| ==> Quiet(calls[k])
    requires FencesInTurn(trace) && AllWaited(trace)
    ensures FencesInTurn(trace + calls) && AllWaited(trace + calls)
    decreases |calls|
  {
    hide FencesInTurn, FenceStageOf, LatestFence, InFlight;
    if calls == [] {
      assert trace + calls == trace;
    } else {
      var n := |calls| - 1;
      QuietAppend(trace, calls[..n]);
      var front := trace + calls[..n];
      assert trace + calls == front + [calls[n]];
      OneMoreTurn(front, calls[n]);
    }
  }

  // ---- commands ----

  lemma QuietCommand(w: World, c: Command, o: Outcomes) returns (calls: seq<Call>)
    requires OwnInv(w) && Typed(w.tracker, c) && !c.CmdbufCommit?
    ensures Step(w, c, o).trace == w.trace + calls
    ensures forall k :: 0 <= k < |calls| ==> Quiet(calls[k])
  {
    hide OwnInv, KindsMatch, Step, Get, Records, IsRender;
    Unfold(w);
    if c.CmdbufCreate? {
      CreateShape(w, c, o);
      calls := Added(w, c, o);
    } else {
      calls := RenderCalls(w, c, o);
    }
  }

  /** The calls of a commit, one by one. */
  lemma CommitFences(trace: seq<Call>, p: Payload)
    requires p.CmdBufPayload? && FencesInTurn(trace) && AllWaited(trace)
    ensures FencesInTurn(trace + CommitCalls(p)) && AllWaited(trace + CommitCalls(p))
  {
    hide FencesInTurn, FenceStageOf, LatestFence, InFlight;
    var t1 := trace + [EndCommandBuffer(p.cmdBuf)];
    var t2 := t1 + [QueueSubmit(p.cmdBuf, p.fence)];
    var t3 := t2 + [WaitForFences(p.cmdBuf, p.fence)];
    var t4 := t3 + [ResetFences(p.cmdBuf, p.fence)];
    var t5 := t4 + [ResetCommandBuffer(p.cmdBuf)];
    OneMoreTurn(trace, EndCommandBuffer(p.cmdBuf));
    OneMoreTurn(t1, QueueSubmit(p.cmdBuf, p.fence));
    OneMoreTurn(t2, WaitForFences(p.cmdBuf, p.fence));
    OneMoreTurn(t3, ResetFences(p.cmdBuf, p.fence));
    OneMoreTurn(t4, ResetCommandBuffer(p.cmdBuf));
    assert trace + CommitCalls(p) == t5;
  }

  lemma StepFences(w: World, c: Command, o: Outcomes)
    requires OwnInv(w) && Typed(w.tracker, c) && FencesInTurn(w.trace) && AllWaited(w.trace)
    ensures KindsMatch(w.tracker)
    ensures FencesInTurn(Step(w, c, o).trace) && AllWaited(Step(w, c, o).trace)
  {
    hide OwnInv, KindsMatch, FencesInTurn, AllWaited, CommitStep, CommitFinds, Get;
    Unfold(w);
    if c.CmdbufCommit? {
      CommitCases(w, c.handle);
      if CommitFinds(w.tracker, c.handle) {
        CommitFences(w.trace, w.tracker.entries[Get(w.tracker, c.handle).value].payload);
      }
    } else {
      var calls := QuietCommand(w, c, o);
      QuietAppend(w.trace, calls);
    }
  }

  lemma {:induction false} RunFences(w: World, jobs: seq<Job>)
    requires OwnInv(w) && AllTyped(w, jobs) && FencesInTurn(w.trace) && AllWaited(w.trace)
    ensures FencesInTurn(Ownership.Run(w, jobs).trace) && AllWaited(Ownership.Run(w, jobs).trace)
    decreases |jobs|
  {
    hide OwnInv, Step, Typed, KindsMatch, FencesInTurn, AllWaited;
    if jobs != [] {
      Unfold(w);
      StepFences(w, jobs[0].command, jobs[0].outcomes);
      StepKeepsOwned(w, jobs[0].command, jobs[0].outcomes);
      RunFences(Step(w, jobs[0].command, jobs[0].outcomes), jobs[1..]);
    }
  }

  /** Over any run from the start, whatever is committed how often: each submission finds its
      fence unused, each wait finds it pending, each fence reset finds it signalled, and a
      command buffer is reset only after the wait for its latest submission. Between
      commands nothing is in flight. */
  lemma FencesAlwaysInTurn(jobs: seq<Job>)
    requires OwnInv(Start()) && AllTyped(Start(), jobs)
    ensures FencesInTurn(Ownership.Run(Start(), jobs).trace)
    ensures AllWaited(Ownership.Run(Start(), jobs).trace)
  {
    hide OwnInv, Ownership.Run, AllTyped;
    RunFences(Start(), jobs);
  }
}
