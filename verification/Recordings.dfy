/** When calls reach a Vulkan command buffer that is not being recorded. A buffer is begun
    once, on creation; a commit ends, submits and resets it, and nothing begins it again. */
module Recordings {
  import opened Words
  import opened Vulkan
  import opened Tracker
  import opened TrackerRuns
  import opened Processor
  import opened Ownership
  import opened RenderPasses

  // ---- the trace, seen from one command buffer ----

  /** A vkCmd call: it needs a command buffer in the recording state. */
  predicate IsCmd(c: Call) {
    || c.PipelineBarrier? || c.BeginRendering? || c.EndRendering? || c.SetViewport? || c.SetScissor?
    || c.BindVertexBuffer? || c.BindIndexBuffer? || c.Draw? || c.DrawIndexed?
  }

  predicate Delimits(c: Call) { c.BeginCommandBuffer? || c.EndCommandBuffer? || c.ResetCommandBuffer? }

  /** Vulkan's states of a command buffer, as far as they decide which calls may follow. */
  datatype Stage = Idle | Recording | Executable

  function StageOf(trace: seq<Call>, cb: Object): Stage {
    if trace == [] then Idle
    else
      var c := trace[|trace| - 1];
      if c.cb == cb && Delimits(c) then StageAfter(c) else StageOf(trace[..|trace| - 1], cb)
  }

  function StageAfter(c: Call): Stage {
    if c.BeginCommandBuffer? then Recording else if c.EndCommandBuffer? then Executable else Idle
  }

  /** Recording and ending need a begun buffer, beginning one that is not, and submitting one
      that has been ended. */
  predicate InTurn(before: seq<Call>, c: Call) {
    && (IsCmd(c) || c.EndCommandBuffer? ==> StageOf(before, c.cb) == Recording)
    && (c.BeginCommandBuffer? ==> StageOf(before, c.cb) != Recording)
    && (c.QueueSubmit? ==> StageOf(before, c.cb) == Executable)
  }

  ghost predicate InOrder(trace: seq<Call>) {
    forall k :: 0 <= k < |trace| ==> InTurn(trace[..k], trace[k])
  }

  lemma OneMoreCall(trace: seq<Call>, c: Call)
    ensures forall x :: StageOf(trace + [c], x)
                        == if c.cb == x && Delimits(c) then StageAfter(c) else StageOf(trace, x)
    ensures InOrder(trace + [c]) <==> InOrder(trace) && InTurn(trace, c)
  {
    hide InTurn;
    var all := trace + [c];
    assert all[..|trace|] == trace;
    assert forall k :: 0 <= k < |trace| ==> all[..k] == trace[..k] && all[k] == trace[k];
    if InOrder(all) {
      assert InTurn(all[..|trace|], all[|trace|]);
      forall k | 0 <= k < |trace| ensures InTurn(trace[..k], trace[k]) { assert InTurn(all[..k], all[k]); }
    }
  }

  /** Some vkCmd calls on one command buffer. */
  ghost predicate Cmds(calls: seq<Call>, cb: Object) {
    forall k :: 0 <= k < |calls| ==> IsCmd(calls[k]) && calls[k].cb == cb
  }

  lemma {:induction false} CmdsAppend(trace: seq<Call>, calls: seq<Call>, cb: Object)
    requires Cmds(calls, cb)
    ensures forall x :: StageOf(trace + calls, x) == StageOf(trace, x)
    ensures InOrder(trace + calls) <==> InOrder(trace) && (calls == [] || StageOf(trace, cb) == Recording)
    decreases |calls|
  {
    hide InOrder, StageOf;
    if calls == [] {
      assert trace + calls == trace;
    } else {
      var n := |calls| - 1;
      CmdsAppend(trace, calls[..n], cb);
      assert trace + calls == (trace + calls[..n]) + [calls[n]];
      OneMoreCall(trace + calls[..n], calls[n]);
    }
  }

  // ---- the recording flag ----

  /** Calls name command buffers that exist already. */
  ghost predicate TraceOld(trace: seq<Call>, next: nat) {
    forall k :: 0 <= k < |trace| ==> trace[k].cb.id < next
  }

  /** The flag of a command buffer in use: down exactly when the trace has left it outside
      a recording, which is exactly when it has been ended. */
  ghost predicate FlagTrue(p: Payload, trace: seq<Call>) {
    p.CmdBufPayload? ==>
      && p.recording == (StageOf(trace, p.cmdBuf) == Recording)
      && (p.recording <==> EndCommandBuffer(p.cmdBuf) !in trace)
  }

  ghost predicate FlagsTrue(t: Table, trace: seq<Call>) {
    forall i :: 0 <= i < |t.entries| && t.entries[i].inUse ==> FlagTrue(t.entries[i].payload, trace)
  }

  ghost predicate RecordInv(w: World) {
    && OwnInv(w)
    && TraceOld(w.trace, w.next)
    && FlagsTrue(w.tracker, w.trace)
  }

  /** Entries keep or lose a command buffer, with its flag. */
  ghost predicate KeepsBuffers(t: Table, u: Table) {
    && |t.entries| == |u.entries|
    && forall i :: 0 <= i < |u.entries| && u.entries[i].inUse && u.entries[i].payload.CmdBufPayload? ==>
         && t.entries[i].inUse && t.entries[i].payload.CmdBufPayload?
         && u.entries[i].payload.cmdBuf == t.entries[i].payload.cmdBuf
         && u.entries[i].payload.recording == t.entries[i].payload.recording
  }

  lemma CmdsKeepFlags(t: Table, u: Table, trace: seq<Call>, calls: seq<Call>, cb: Object)
    requires FlagsTrue(t, trace) && KeepsBuffers(t, u) && Cmds(calls, cb)
    ensures FlagsTrue(u, trace + calls)
  {
    hide StageOf;
    CmdsAppend(trace, calls, cb);
    forall i | 0 <= i < |u.entries| && u.entries[i].inUse ensures FlagTrue(u.entries[i].payload, trace + calls) {
      if u.entries[i].payload.CmdBufPayload? {
        assert FlagTrue(t.entries[i].payload, trace);
        assert EndCommandBuffer(u.entries[i].payload.cmdBuf) !in calls;
      }
    }
  }

  // ---- what a command does to a recording ----

  /** The command records on, or ends, a command buffer the tracker knows. */
  predicate Records(t: Table, c: Command)
    requires Sized(t) && Typed(t, c)
  {
    match c
    case RenderBegin(h, _, _) => Get(t, h).Some?
    case RenderEnd(h) => Get(t, h).Some? && PayloadOf(t, h).inRenderPass
    case RenderSetVertexBuffer(h, b, _, _) => Get(t, h).Some? && Get(t, b).Some?
    case RenderDrawIndexed(h, _, b, _) => Get(t, h).Some? && Get(t, b).Some?
    case CmdbufCommit(h) => CommitFinds(t, h)
    case _ => IsRender(c) && Get(t, c.cmdbuf).Some?
  }

  function Target(c: Command): u32
    requires IsRender(c) || c.CmdbufCommit?
  {
    if c.CmdbufCommit? then c.handle else c.cmdbuf
  }

  /** Whatever the command records goes to a buffer that has not been committed. The
      handlers do not look. */
  predicate Recordable(t: Table, c: Command)
    requires Sized(t) && KindsMatch(t) && Typed(t, c)
  {
    Records(t, c) ==> PayloadOf(t, Target(c)).recording
  }

  /** The calls of a command that neither creates nor commits a command buffer. */
  lemma RenderCalls(w: World, c: Command, o: Outcomes) returns (calls: seq<Call>)
    requires OwnInv(w) && Typed(w.tracker, c) && !c.CmdbufCreate? && !c.CmdbufCommit?
    ensures Step(w, c, o).trace == w.trace + calls && Step(w, c, o).next >= w.next
    ensures calls == [] <==> !Records(w.tracker, c)
    ensures calls != [] ==>
              && IsRender(c) && Get(w.tracker, c.cmdbuf).Some? && PayloadOf(w.tracker, c.cmdbuf).CmdBufPayload?
              && Cmds(calls, PayloadOf(w.tracker, c.cmdbuf).cmdBuf)
  {
    hide Accounted, Get, PoolOk, KindsMatch, CreateBufferStep, CreateTextureStep, CreateSamplerStep, Remove, Track,
         RenderBeginStep, OnlyFresh;
    if c.RenderBegin? {
      calls := BeginCalls(w, c);
    } else if c.RenderEnd? {
      calls := Step(w, c, o).trace[|w.trace|..];
    } else {
      UnmarkedStep(w, c, o);
      calls := Recorded(w.tracker, c);
    }
  }

  lemma BeginCalls(w: World, c: Command) returns (calls: seq<Call>)
    requires OwnInv(w) && Sized(w.tracker) && c.RenderBegin? && Typed(w.tracker, c)
    ensures var w' := RenderBeginStep(w, c.cmdbuf, c.colors, c.depth);
            w'.trace == w.trace + calls && w'.next == w.next
    ensures calls == [] <==> Get(w.tracker, c.cmdbuf).None?
    ensures calls != [] ==> PayloadOf(w.tracker, c.cmdbuf).CmdBufPayload?
                            && Cmds(calls, PayloadOf(w.tracker, c.cmdbuf).cmdBuf)
  {
    hide OwnInv, Get, RenderBeginStep;
    if Get(w.tracker, c.cmdbuf).None? {
      UnknownBuffer(w, c.cmdbuf, c.colors, c.depth);
      calls := [];
      assert w.trace + [] == w.trace;
    } else {
      var barriers, begin := RenderBeginShape(w, c.cmdbuf, c.colors, c.depth);
      calls := barriers + [begin];
      assert (w.trace + barriers) + [begin] == w.trace + calls;
    }
  }

  lemma BuffersKept(w: World, c: Command, o: Outcomes)
    requires OwnInv(w) && Typed(w.tracker, c) && !c.CmdbufCreate? && !c.CmdbufCommit?
    ensures KeepsBuffers(w.tracker, Step(w, c, o).tracker)
  {
    hide Accounted, Get, PoolOk, KindsMatch, CreateBufferStep, CreateTextureStep, CreateSamplerStep, Remove, Track,
         RenderBeginStep;
    var t := w.tracker;
    if c.RenderBegin? {
      BuffersKeptByBegin(w, c);
    } else if c.Destroy? {
      if Get(t, c.handle).Some? { RemovedEntry(t, c.handle); } else { RemoveAbsent(t, c.handle); }
    } else if Creates(c) {
      CreateShape(w, c, o);
      FilledElsewhere(w, c, o);
    }
  }

  lemma BuffersKeptByBegin(w: World, c: Command)
    requires OwnInv(w) && Sized(w.tracker) && c.RenderBegin? && Typed(w.tracker, c)
    ensures KeepsBuffers(w.tracker, RenderBeginStep(w, c.cmdbuf, c.colors, c.depth).tracker)
  {
    hide Accounted, Get, PoolOk, KindsMatch, RenderBeginStep;
    if Get(w.tracker, c.cmdbuf).None? {
      UnknownBuffer(w, c.cmdbuf, c.colors, c.depth);
    } else {
      RenderBeginEdits(w, c.cmdbuf, c.colors, c.depth);
      var barriers, begin := RenderBeginShape(w, c.cmdbuf, c.colors, c.depth);
      var u := RenderBeginStep(w, c.cmdbuf, c.colors, c.depth).tracker;
      forall i | 0 <= i < |u.entries| && u.entries[i].payload.CmdBufPayload?
        ensures w.tracker.entries[i].inUse == u.entries[i].inUse
      {
        assert u.entries[i] == w.tracker.entries[i].(payload := u.entries[i].payload);
      }
    }
  }

  lemma FilledElsewhere(w: World, c: Command, o: Outcomes)
    requires Creates(c) && !c.CmdbufCreate?
    ensures !NewPayload(w, c, o).CmdBufPayload?
  {
  }

  lemma {:induction false} OldHasNone(trace: seq<Call>, next: nat, cb: Object)
    requires TraceOld(trace, next) && cb.id >= next
    ensures StageOf(trace, cb) == Idle && EndCommandBuffer(cb) !in trace
  {
    if trace != [] {
      OldHasNone(trace[..|trace| - 1], next, cb);
    }
  }

  lemma TraceOldAppend(trace: seq<Call>, calls: seq<Call>, next: nat, next': nat)
    requires TraceOld(trace, next) && next <= next' && forall k :: 0 <= k < |calls| ==> calls[k].cb.id < next'
    ensures TraceOld(trace + calls, next')
  {
  }

  // ---- steps ----

  lemma RenderRecords(w: World, c: Command, o: Outcomes)
    requires RecordInv(w) && Typed(w.tracker, c) && !c.CmdbufCreate? && !c.CmdbufCommit?
    ensures var w' := Step(w, c, o);
            && TraceOld(w'.trace, w'.next) && FlagsTrue(w'.tracker, w'.trace)
            && (InOrder(w'.trace) <==> InOrder(w.trace) && Recordable(w.tracker, c))
  {
    hide OwnInv, Step, KindsMatch, Get, Records, InOrder, StageOf, FlagTrue, KeepsBuffers;
    Unfold(w);
    var calls := RenderCalls(w, c, o);
    BuffersKept(w, c, o);
    if calls == [] {
      var any := Object(VkBuffer, 0);
      CmdsAppend(w.trace, calls, any);
      CmdsKeepFlags(w.tracker, Step(w, c, o).tracker, w.trace, calls, any);
      TraceOldAppend(w.trace, calls, w.next, Step(w, c, o).next);
    } else {
      var cb := PayloadOf(w.tracker, c.cmdbuf).cmdBuf;
      BufferIsOld(w, c.cmdbuf);
      CmdsAppend(w.trace, calls, cb);
      CmdsKeepFlags(w.tracker, Step(w, c, o).tracker, w.trace, calls, cb);
      TraceOldAppend(w.trace, calls, w.next, Step(w, c, o).next);
      FlagOf(w.tracker, w.trace, Get(w.tracker, c.cmdbuf).value);
    }
  }

  lemma FlagOf(t: Table, trace: seq<Call>, i: nat)
    requires FlagsTrue(t, trace) && i < |t.entries| && t.entries[i].inUse && t.entries[i].payload.CmdBufPayload?
    ensures t.entries[i].payload.recording == (StageOf(trace, t.entries[i].payload.cmdBuf) == Recording)
  {
  }

  lemma CreateRecords(w: World, c: Command, o: Outcomes)
    requires RecordInv(w) && c.CmdbufCreate? && Typed(w.tracker, c)
    ensures var w' := Step(w, c, o);
            && TraceOld(w'.trace, w'.next) && FlagsTrue(w'.tracker, w'.trace)
            && (InOrder(w'.trace) <==> InOrder(w.trace))
  {
    hide Accounted, PoolOk, KindsMatch, Get, CmdbufCreateStep, InOrder, StageOf, Track;
    StepKeepsOwned(w, c, o);
    CreateShape(w, c, o);
    var w', p, calls := Step(w, c, o), NewPayload(w, c, o), Added(w, c, o);
    assert w.trace + [] == w.trace;
    OldHasNone(w.trace, w.next, p.cmdBuf);
    if calls != [] {
      OneMoreCall(w.trace, calls[0]);
      CreatedIsNewer(w, c, o);
    }
    forall i | 0 <= i < |w'.tracker.entries| && w'.tracker.entries[i].inUse
      ensures FlagTrue(w'.tracker.entries[i].payload, w'.trace)
    {
      if w'.tracker.entries[i] == w.tracker.entries[i] {
        assert FlagTrue(w.tracker.entries[i].payload, w.trace);
        if w.tracker.entries[i].payload.CmdBufPayload? { OldBuffer(w, i); }
      }
    }
  }

  lemma CreatedIsNewer(w: World, c: Command, o: Outcomes)
    requires Sized(w.tracker) && KindsMatch(w.tracker) && c.CmdbufCreate? && Succeeds(o, 0) && Succeeds(o, 1)
    ensures w.next < Step(w, c, o).next
  {
    hide Track, KindsMatch, Sized, Add, CanAdd;
    var w2 := CreateObject(CreateObject(w, VkCommandBuffer), VkFence);
    var p := NewPayload(w, c, o);
    TrackCases(Emit(w2, BeginCommandBuffer(p.cmdBuf)), c.handle, CmdBuf, p);
  }

  lemma OldBuffer(w: World, i: nat)
    requires OwnInv(w) && i < |w.tracker.entries| && w.tracker.entries[i].inUse
    requires w.tracker.entries[i].payload.CmdBufPayload?
    ensures w.tracker.entries[i].payload.cmdBuf.id < w.next
  {
    hide PoolOk;
    assert w.tracker.entries[i].payload.cmdBuf in OwnedAt(w.tracker, i);
    assert OwnedAt(w.tracker, i) <= w.live;
  }

  lemma CommitRecords(w: World, h: u32)
    requires RecordInv(w) && Sized(w.tracker) && KindsMatch(w.tracker)
    ensures var w' := CommitStep(w, h);
            && TraceOld(w'.trace, w'.next) && FlagsTrue(w'.tracker, w'.trace)
            && (InOrder(w'.trace) <==> InOrder(w.trace) && Recordable(w.tracker, CmdbufCommit(h)))
  {
    hide OwnInv, KindsMatch, Get, InOrder, StageOf, CommitStep, CommitFinds;
    CommitCases(w, h);
    if CommitFinds(w.tracker, h) {
      var i := Get(w.tracker, h).value;
      var p := w.tracker.entries[i].payload;
      FlagOf(w.tracker, w.trace, i);
      OldBuffer(w, i);
      CommitOrder(w.trace, p);
      TraceOldAppend(w.trace, CommitCalls(p), w.next, w.next);
      var u, trace := CommitStep(w, h).tracker, w.trace + CommitCalls(p);
      forall j | 0 <= j < |u.entries| && u.entries[j].inUse ensures FlagTrue(u.entries[j].payload, trace) {
        if j == i {
          assert CommitCalls(p)[0] == EndCommandBuffer(p.cmdBuf) && trace[|w.trace|] == CommitCalls(p)[0];
        } else {
          assert FlagTrue(w.tracker.entries[j].payload, w.trace);
          if u.entries[j].payload.CmdBufPayload? {
            OwnBuffers(w, i, j);
            assert EndCommandBuffer(u.entries[j].payload.cmdBuf) !in CommitCalls(p);
          }
        }
      }
    }
  }

  /** The five calls of a commit come in turn exactly on a buffer still recording. */
  lemma CommitOrder(trace: seq<Call>, p: Payload)
    requires p.CmdBufPayload?
    ensures InOrder(trace + CommitCalls(p)) <==> InOrder(trace) && StageOf(trace, p.cmdBuf) == Recording
    ensures forall x :: StageOf(trace + CommitCalls(p), x) == if x == p.cmdBuf then Idle else StageOf(trace, x)
  {
    hide InOrder, StageOf;
    var t1 := trace + [EndCommandBuffer(p.cmdBuf)];
    var t2 := t1 + [QueueSubmit(p.cmdBuf, p.fence)];
    var t3 := t2 + [WaitForFences(p.cmdBuf, p.fence)];
    var t4 := t3 + [ResetFences(p.cmdBuf, p.fence)];
    OneMoreCall(trace, EndCommandBuffer(p.cmdBuf));
    OneMoreCall(t1, QueueSubmit(p.cmdBuf, p.fence));
    OneMoreCall(t2, WaitForFences(p.cmdBuf, p.fence));
    OneMoreCall(t3, ResetFences(p.cmdBuf, p.fence));
    OneMoreCall(t4, ResetCommandBuffer(p.cmdBuf));
    assert trace + CommitCalls(p) == t4 + [ResetCommandBuffer(p.cmdBuf)];
  }

  /** One command of any kind: the flags stay true, and calls stay in turn if and only if
      the command does not record on, or commit, a buffer committed before. */
  lemma StepRecords(w: World, c: Command, o: Outcomes)
    requires RecordInv(w) && Typed(w.tracker, c)
    ensures RecordInv(Step(w, c, o))
    ensures InOrder(Step(w, c, o).trace) <==> InOrder(w.trace) && Recordable(w.tracker, c)
  {
    hide OwnInv, KindsMatch, Get, InOrder, StageOf, FlagsTrue, TraceOld, CommitStep, CmdbufCreateStep, CreateBufferStep,
         CreateTextureStep, CreateSamplerStep, DestroyStep, RenderBeginStep, RenderEndStep, Recorded;
    Unfold(w);
    StepKeepsOwned(w, c, o);
    if c.CmdbufCreate? { CreateRecords(w, c, o); }
    else if c.CmdbufCommit? { CommitRecords(w, c.handle); }
    else { RenderRecords(w, c, o); }
  }

  // ---- runs ----

  /** No command of the run records on, or commits, a buffer already committed. */
  ghost predicate AllRecordable(w: World, jobs: seq<Job>)
    requires OwnInv(w) && AllTyped(w, jobs)
    decreases |jobs|
  {
    jobs == [] || (&& Recordable(w.tracker, jobs[0].command)
                   && (StepKeepsOwned(w, jobs[0].command, jobs[0].outcomes);
                       AllRecordable(Step(w, jobs[0].command, jobs[0].outcomes), jobs[1..])))
  }

  lemma {:induction false} RunRecords(w: World, jobs: seq<Job>)
    requires RecordInv(w) && OwnInv(w) && AllTyped(w, jobs)
    ensures RecordInv(Ownership.Run(w, jobs))
    ensures InOrder(Ownership.Run(w, jobs).trace) <==> InOrder(w.trace) && AllRecordable(w, jobs)
    decreases |jobs|
  {
    hide RecordInv, OwnInv, Step, Typed, InOrder, Recordable, KindsMatch;
    if jobs != [] {
      Unfold(w);
      StepRecords(w, jobs[0].command, jobs[0].outcomes);
      StepKeepsOwned(w, jobs[0].command, jobs[0].outcomes);
      RunRecords(Step(w, jobs[0].command, jobs[0].outcomes), jobs[1..]);
    }
  }

  /** Over any run from the start: every vkCmd call lies between its buffer's begin and end,
      and every submission after the end, if and only if no command records on or commits a
      buffer already committed. Either way the flag of each buffer in use is down exactly
      when the buffer has been ended. */
  lemma RecordedInTurnExactly(jobs: seq<Job>)
    requires OwnInv(Start()) && AllTyped(Start(), jobs)
    ensures InOrder(Ownership.Run(Start(), jobs).trace) <==> AllRecordable(Start(), jobs)
    ensures FlagsTrue(Ownership.Run(Start(), jobs).tracker, Ownership.Run(Start(), jobs).trace)
  {
    hide OwnInv, Ownership.Run, AllTyped, AllRecordable, FlagTrue;
    assert RecordInv(Start());
    RunRecords(Start(), jobs);
  }
}
